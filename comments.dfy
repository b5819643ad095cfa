/** The small line-based text helpers of generate.py: indentation of a block
    and Doxygen comment formatting. */
module Comments {
  import opened Text

  /** Every line of `lines` with `prefix` put in front of it. */
  function Prefixed(prefix: string, lines: seq<string>): (r: seq<string>)
    ensures |r| == |lines| && forall i :: 0 <= i < |lines| ==> r[i] == prefix + lines[i]
  {
    seq(|lines|, i requires 0 <= i < |lines| => prefix + lines[i])
  }

  /** apply_indent: put `indent` spaces in front of every line of `code`. */
  function ApplyIndent(code: string, indent: nat): string {
    var pad := Repeat(' ', indent);
    pad + Join(Split(code, '\n'), "\n" + pad)
  }

  /** format_comment: every line of `comment` becomes a ` * ` line of a block
      comment, each introduced by a line break. */
  function FormatComment(comment: string, indent: nat): string {
    Join([""] + Split(comment, '\n'), "\n" + Repeat(' ', indent) + " * ")
  }

  /** format_brief_descr_comment: a Doxygen comment with a @brief line and,
      when there is a description, its lines below.  With `midComment` the
      comment delimiters are left out (the text goes inside another comment). */
  function FormatBriefDescrComment(brief: string, descr: string, midComment: bool): string {
    var comment := if midComment then "" else "/** ";
    if descr == "" then
      comment + "@brief " + brief + (if midComment then "" else " */")
    else
      comment + "@brief " + brief + FormatComment("\n" + descr, 0) + (if midComment then "" else "\n */")
  }

  /** Putting `p` before a join whose separator ends in `p` is the same as
      prefixing every piece. */
  lemma {:induction false} PrefixJoin(p: string, lines: seq<string>, sep: string)
    requires |lines| >= 1
    ensures p + Join(lines, sep + p) == Join(Prefixed(p, lines), sep)
    decreases |lines|
  {
    if |lines| > 1 {
      PrefixJoin(p, lines[1..], sep);
      assert Prefixed(p, lines)[1..] == Prefixed(p, lines[1..]);
    }
  }

  lemma PrefixedNoNewline(p: string, lines: seq<string>)
    requires '\n' !in p && forall i :: 0 <= i < |lines| ==> '\n' !in lines[i]
    ensures forall i :: 0 <= i < |lines| ==> '\n' !in Prefixed(p, lines)[i]
  {
  }

  /** The lines of an indented block are the lines of the block, each with
      the indentation in front. */
  lemma ApplyIndentLines(code: string, indent: nat)
    ensures Split(ApplyIndent(code, indent), '\n') == Prefixed(Repeat(' ', indent), Split(code, '\n'))
  {
    var lines := Split(code, '\n');
    PrefixJoin(Repeat(' ', indent), lines, "\n");
    PrefixedNoNewline(Repeat(' ', indent), lines);
    SplitJoin(Prefixed(Repeat(' ', indent), lines), '\n');
  }

  /** An indentation of zero leaves the text as it is. */
  lemma ApplyIndentZero(code: string)
    ensures ApplyIndent(code, 0) == code
  {
    JoinSplit(code, '\n');
    assert Repeat(' ', 0) == "";
    assert "\n" + Repeat(' ', 0) == "\n";
  }

  /** format_comment yields a leading empty line and then one ` * ` line per
      line of the comment, in order. */
  lemma FormatCommentLines(comment: string, indent: nat)
    ensures Split(FormatComment(comment, indent), '\n')
      == [""] + Prefixed(Repeat(' ', indent) + " * ", Split(comment, '\n'))
  {
    var q := Repeat(' ', indent) + " * ";
    var lines := Split(comment, '\n');
    assert ([""] + lines)[1..] == lines;
    PrefixJoin(q, lines, "\n");
    var body := Join(Prefixed(q, lines), "\n");
    assert "\n" + Repeat(' ', indent) + " * " == "\n" + q;
    assert Join([""] + lines, "\n" + q) == "" + ("\n" + q) + Join(lines, "\n" + q);
    assert FormatComment(comment, indent) == "\n" + body;
    PrefixedNoNewline(q, lines);
    SplitJoin(Prefixed(q, lines), '\n');
    SplitAppend("", body, '\n');
    assert "" + "\n" + body == "\n" + body;
  }

  /** The description part of a brief/description comment: an empty ` * `
      line, then one ` * ` line per description line. */
  lemma DescriptionCommentText(descr: string)
    ensures FormatComment("\n" + descr, 0) == "\n * \n" + Join(Prefixed(" * ", Split(descr, '\n')), "\n")
  {
    var lines := Split(descr, '\n');
    var sep := "\n * ";
    SplitLeadBreak(descr);
    assert "\n" + Repeat(' ', 0) + " * " == sep;
    JoinLeadEmpty(lines, sep);
    PrefixJoin(" * ", lines, "\n");
    assert "\n" + " * " == sep;
    TwoSeps(Join(lines, sep));
  }

  lemma SplitLeadBreak(descr: string)
    ensures Split("\n" + descr, '\n') == [""] + Split(descr, '\n')
  {
    SplitAppend("", descr, '\n');
    assert "" + "\n" + descr == "\n" + descr;
  }

  /** Two empty pieces in front of a join: two separators. */
  lemma JoinLeadEmpty(lines: seq<string>, sep: string)
    requires |lines| >= 1
    ensures Join([""] + ([""] + lines), sep) == sep + sep + Join(lines, sep)
  {
    assert ([""] + ([""] + lines))[1..] == [""] + lines;
    assert ([""] + lines)[1..] == lines;
    assert Join([""] + lines, sep) == "" + sep + Join(lines, sep);
  }

  lemma TwoSeps(j: string)
    ensures "\n * " + "\n * " + j == "\n * \n" + (" * " + j)
  {
  }

  /** Lines of a comment with a description, given its first line. */
  lemma DescribedLines(head: string, descr: string, closing: bool)
    requires '\n' !in head
    ensures Split(head + FormatComment("\n" + descr, 0) + (if closing then "\n */" else ""), '\n')
      == [head, " * "] + Prefixed(" * ", Split(descr, '\n')) + (if closing then [" */"] else [])
  {
    var front := [head, " * "] + Prefixed(" * ", Split(descr, '\n'));
    var text := head + FormatComment("\n" + descr, 0);
    DescribedFront(head, descr);
    if closing {
      SplitWithClose(front, text);
    } else {
      assert text + "" == text;
      assert front + [] == front;
      SplitJoin(front, '\n');
    }
  }

  /** The first line, the empty ` * ` line and the description lines joined
      are the first line followed by the description part. */
  lemma DescribedFront(head: string, descr: string)
    requires '\n' !in head
    ensures var front := [head, " * "] + Prefixed(" * ", Split(descr, '\n'));
      Join(front, "\n") == head + FormatComment("\n" + descr, 0)
      && forall i :: 0 <= i < |front| ==> '\n' !in front[i]
  {
    var p := Prefixed(" * ", Split(descr, '\n'));
    DescriptionCommentText(descr);
    PrefixedNoNewline(" * ", Split(descr, '\n'));
    JoinAppend([head, " * "], p, "\n");
    assert Join([head, " * "], "\n") == head + "\n" + " * ";
    FrontRegroup(head, Join(p, "\n"));
    var front := [head, " * "] + p;
    assert forall i :: 0 <= i < |front| ==> '\n' !in front[i];
  }

  lemma FrontRegroup(head: string, j: string)
    ensures head + "\n" + " * " + "\n" + j == head + ("\n * \n" + j)
  {
    assert "\n" + " * " + "\n" == "\n * \n";
  }

  /** Lines joined by line breaks, then a closing line. */
  lemma SplitWithClose(front: seq<string>, text: string)
    requires |front| >= 1 && forall i :: 0 <= i < |front| ==> '\n' !in front[i]
    requires Join(front, "\n") == text
    ensures Split(text + "\n */", '\n') == front + [" */"]
  {
    var close := " */";
    var lines := front + [close];
    JoinAppend(front, [close], "\n");
    assert Join([close], "\n") == close;
    assert "\n" + close == "\n */";
    assert text + "\n" + close == text + "\n */";
    assert forall i :: 0 <= i < |front| ==> lines[i] == front[i];
    assert lines[|front|] == close;
    SplitJoin(lines, '\n');
  }

  /** The lines of a brief/description comment: the @brief line, then (when
      there is a description) an empty ` * ` line and one ` * ` line per
      description line, then the closing line unless it is a mid comment. */
  lemma BriefCommentLines(brief: string, descr: string, midComment: bool)
    requires '\n' !in brief
    ensures var open := if midComment then "" else "/** ";
      Split(FormatBriefDescrComment(brief, descr, midComment), '\n') ==
        if descr == "" then [open + "@brief " + brief + (if midComment then "" else " */")]
        else [open + "@brief " + brief, " * "] + Prefixed(" * ", Split(descr, '\n'))
             + (if midComment then [] else [" */"])
  {
    var open := if midComment then "" else "/** ";
    var head := open + "@brief " + brief;
    if descr == "" {
      SplitNoSep(head + (if midComment then "" else " */"), '\n');
    } else {
      DescribedLines(head, descr, !midComment);
    }
  }
}
