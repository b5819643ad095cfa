/** The text of the four kinds of files generate.py writes: include/toggle.h
    and src/toggle.c from both tables, and one header and one source under
    characterizations/ per profile.  Each builder returns the file's path and
    the cleaned text, or the error of the first lookup that fails; writing the
    file is not modelled.  The accumulating for-loops of the source become
    while-loops proved against the specification functions below. */
module Assembly {
  import opened Outcomes
  import opened Text
  import opened Tables
  import opened Comments
  import opened Normalize
  import opened Engine

  /** A generated file: where it is written and what it holds. */
  datatype Artifact = Artifact(path: string, code: string)

  // ---------------------------------------------------------------------
  // Fixed text (generate.py:28-38, 128-181, 184-190, 192-197, 213-219)

  const ResetDecl: string :=
    "/** @brief Reset toggles to the initialization values.\n"
    + " *\n"
    + " * Call this function in the setup of a test suite to start every\n"
    + " * test with consistent values.\n"
    + " *\n"
    + " * This function is available only when testing is enabled (when\n"
    + " * `TESTING` is defined as 1).\n"
    + " */\n"
    + "void testing_reset_toggles(void);\n"

  const ToggleBegin: string :=
    "#ifndef TOGGLE_H\n"
    + "#define TOGGLE_H\n"
    + "\n"
    + "#ifdef __cplusplus\n"
    + "extern \"C\"\n"
    + "{\n"
    + "#endif\n"
    + "\n"
    + "/** @file toggle.h\n"
    + " * @brief Toggle definitions.\n"
    + " *\n"
    + " * This file validates the macro CHAR_ID and includes the corresponding\n"
    + " * Toggle header.\n"
    + " *\n"
    + " * In the list of CHAR_IDS, always add to the end of the list and\n"
    + " * increment NUM_CHAR_IDS.\n"
    + " *\n"
    + " * Numbering starts with 1 because the compiler would treat an undefined\n"
    + " * CHAR_ID as 0.\n"
    + " */\n"
    + "\n"
    + "#include <stdbool.h>\n"
    + "#include <stdint.h>\n"
    + "\n"
    + "#ifdef DOXYGEN\n"
    + "    /** @brief Characterization ID (int).\n"
    + "     *\n"
    + "     * Define the device characterization: the options and features enabled.\n"
    + "     *\n"
    + "     * The characterization ID should be defined when calling CMake (ex:\n"
    + "     * `cmake -D CHAR_ID=...`) or when calling the compiler (ex:\n"
    + "     * `gcc -D CHAR_ID=...`).\n"
    + "     */\n"
    + "    #define CHAR_ID CHAR_ID_EXAMPLE\n"
    + "#endif\n"
    + "\n"
    + "#ifndef CHAR_ID\n"
    + "    #define CHAR_ID CHAR_ID_EXAMPLE\n"
    + "    #warning \"CHAR_ID is not defined. Using default.\"\n"
    + "#endif\n"
    + "\n"

  const ToggleEnd: string :=
    "#ifdef __cplusplus\n"
    + "}\n"
    + "#endif\n"
    + "\n"
    + "#endif /* TOGGLE_H */\n"

  const OptionDocHead: string := "/* Options documentation. */\n\n#ifdef DOXYGEN\n\n"
  const OptionDocTail: string := "\n#endif /* DOXYGEN */\n\n"
  const CharIdsHead: string := "/* List of CHAR_IDs. */\n"
  const HeaderIncludesHead: string :=
    "/* Include the characterization. */\n#ifdef DOXYGEN\n    /* Nothing to include for Doxygen. */\n"
  const HeaderIncludesTail: string := "#endif\n\n"
  const SourceBegin: string := "#include \"toggle.h\"\n\n"
  const SourceIncludesHead: string := "#ifdef DOXYGEN\n    /* Nothing to include for Doxygen. */\n"
  const SourceIncludesTail: string := "#endif\n"
  const ResetFnHead: string := "\n" + ResetFnLine + "\n" + "{" + "\n"
  const ResetFnLine: string := "void testing_reset_toggles(void)"
  const ResetFnTail: string := "}\n"

  /** The count of profiles, and the range check that uses it. */
  function CountText(count: nat): string {
    "\n#define NUM_CHAR_IDS " + NatToString(count) + " /**< @brief Number of char IDs. */\n\n"
    + "/* Validate CHAR_ID range. */\n"
    + "#if (CHAR_ID < 1 || CHAR_ID > NUM_CHAR_IDS)\n"
    + "    #error \"Macro CHAR_ID is not in the valid range.\"\n"
    + "#endif\n\n"
  }

  /** The opening of a profile header: guard, @file line and the profile's
      brief and description inside the file comment. */
  function GuardOpen(guard: string, fileName: string, brief: string, descr: string): string {
    "#ifndef " + guard + "\n#define " + guard + "\n\n/** @file " + fileName + "\n * "
    + FormatBriefDescrComment(brief, descr, true) + "\n */\n\n"
  }

  function GuardClose(guard: string): string {
    "\n#endif /* " + guard + " */\n"
  }

  // ---------------------------------------------------------------------
  // Table rows in order

  /** Every key of the table has a row. */
  predicate Keyed(t: Table) {
    forall k :: k in t.keys ==> k in t.rows
  }

  /** The rows of the table in key order, as `dict.values()` yields them. */
  function RowsOf(t: Table): (rows: seq<Row>)
    requires Keyed(t)
    ensures |rows| == |t.keys| && forall i :: 0 <= i < |t.keys| ==> rows[i] == t.rows[t.keys[i]]
  {
    seq(|t.keys|, i requires 0 <= i < |t.keys| => t.rows[t.keys[i]])
  }

  // ---------------------------------------------------------------------
  // The per-toggle fragments (generate.py:190-195, 333-336, 346-349, 403-408)

  /** Which loop body: the documentation entry of toggle.h, the declaration
      of a profile header, the definition of a profile source, or the
      assignment inside testing_reset_toggles. */
  datatype Piece = DocPiece | DeclPiece | DefPiece | AssignPiece

  /** One loop body's text for one toggle row, its parts evaluated left to
      right as the f-string does. */
  function PieceOf(piece: Piece, data: Row, charId: Option<Row>): Result<string> {
    match piece
    case DocPiece =>
      var brief :- Lookup(data, "BRIEF");
      var descr :- Lookup(data, "DESCRIPTION");
      var decl :- FormatHDeclaration(data, None);
      Ok(ApplyIndent(FormatBriefDescrComment(brief, descr, false), 4) + "\n" + ApplyIndent(decl, 4) + "\n\n")
    case DeclPiece =>
      var brief :- Lookup(data, "BRIEF");
      var descr :- Lookup(data, "DESCRIPTION");
      var decl :- FormatHDeclaration(data, charId);
      Ok(FormatBriefDescrComment(brief, descr, false) + "\n" + decl + "\n\n")
    case DefPiece =>
      var def :- FormatCDefinition(data, charId);
      Ok(def + "\n")
    case AssignPiece =>
      var assign :- FormatCAssignment(data, charId);
      Ok(ApplyIndent(assign, 4) + "\n")
  }

  /** The loop body for one kind of fragment, as a function of the row. */
  function Fragment(piece: Piece, charId: Option<Row>): Row -> Result<string> {
    data => PieceOf(piece, data, charId)
  }

  /** The fragments of all rows, in order, or the error of the first row
      that has none. */
  function Pieces(f: Row -> Result<string>, rows: seq<Row>): (r: Result<seq<string>>)
    ensures r.Ok? <==> forall i :: 0 <= i < |rows| ==> f(rows[i]).Ok?
    ensures r.Ok? ==> |r.value| == |rows|
    ensures r.Ok? ==> forall i :: 0 <= i < |rows| ==> r.value[i] == f(rows[i]).value
    ensures r.Err? ==> exists i :: 0 <= i < |rows| && f(rows[i]) == Err(r.error)
                                   && forall j :: 0 <= j < i ==> f(rows[j]).Ok?
    decreases |rows|
  {
    if |rows| == 0 then Ok([])
    else
      var front :- Pieces(f, rows[..|rows| - 1]);
      var last :- f(rows[|rows| - 1]);
      Ok(front + [last])
  }

  /** Once a prefix of the rows fails, the whole fails with the same error. */
  lemma {:induction false} PiecesPrefix(f: Row -> Result<string>, rows: seq<Row>, n: nat)
    requires n <= |rows| && Pieces(f, rows[..n]).Err?
    ensures Pieces(f, rows) == Pieces(f, rows[..n])
    decreases |rows|
  {
    if n == |rows| {
      assert rows[..n] == rows;
    } else {
      var front := rows[..|rows| - 1];
      assert front[..n] == rows[..n];
      PiecesPrefix(f, front, n);
    }
  }

  /** The text accumulated on top of `code`, when every fragment exists. */
  function Appended(code: string, pieces: Result<seq<string>>): Result<string> {
    match pieces
    case Ok(ps) => Ok(code + Concat(ps))
    case Err(e) => Err(e)
  }

  /** One `for name, data in defaults.items()` loop: the fragment of every
      toggle appended to `code` in table order; the first failing toggle
      ends it with its error. */
  method AppendPieces(code: string, f: Row -> Result<string>, t: Table) returns (r: Result<string>)
    requires Keyed(t)
    ensures r == Appended(code, Pieces(f, RowsOf(t)))
  {
    var rows := RowsOf(t);
    var acc := code;
    var i := 0;
    while i < |t.keys|
      invariant 0 <= i <= |t.keys|
      invariant Pieces(f, rows[..i]).Ok?
      invariant acc == code + Concat(Pieces(f, rows[..i]).value)
    {
      var fragment := f(t.rows[t.keys[i]]);
      assert rows[..i + 1][..i] == rows[..i];
      if fragment.Err? {
        PiecesPrefix(f, rows, i + 1);
        return Err(fragment.error);
      }
      var ps := Pieces(f, rows[..i]).value;
      assert Pieces(f, rows[..i + 1]).value == ps + [fragment.value];
      assert (ps + [fragment.value])[..|ps|] == ps;
      acc := acc + fragment.value;
      i := i + 1;
    }
    assert rows[..i] == rows;
    return Ok(acc);
  }

  // ---------------------------------------------------------------------
  // The list of profiles (generate.py:207-225)

  /** `#define <id> <num> /**< @brief <brief> */` for one profile. */
  function IdLine(id: string, brief: string, num: nat): string {
    "#define " + id + " " + NatToString(num) + " /**< @brief " + brief + " */\n"
  }

  /** The lines of the first `n` profiles, numbered from 1 in table order,
      or the missing BRIEF column. */
  function IdLines(t: Table, n: nat): (r: Result<seq<string>>)
    requires Keyed(t) && n <= |t.keys|
    ensures r.Ok? <==> forall i :: 0 <= i < n ==> "BRIEF" in t.rows[t.keys[i]]
    ensures r.Ok? ==> |r.value| == n
    ensures r.Ok? ==> forall i :: 0 <= i < n ==> r.value[i] == IdLine(t.keys[i], t.rows[t.keys[i]]["BRIEF"], i + 1)
    ensures r.Err? ==> r.error == MissingKey("BRIEF")
  {
    if n == 0 then Ok([])
    else
      var front :- IdLines(t, n - 1);
      var brief :- Lookup(t.rows[t.keys[n - 1]], "BRIEF");
      Ok(front + [IdLine(t.keys[n - 1], brief, n)])
  }

  /** The "List of CHAR_IDs" block: one numbered line per profile, then
      NUM_CHAR_IDS set to the number of profiles. */
  function CharIdList(charIds: Table): Result<string>
    requires Keyed(charIds)
  {
    var lines :- IdLines(charIds, |charIds.keys|);
    Ok(CharIdsHead + Concat(lines) + CountText(|charIds.keys|))
  }

  /** One more profile with a BRIEF adds its line. */
  lemma IdLinesStep(t: Table, i: nat)
    requires Keyed(t) && i < |t.keys| && IdLines(t, i).Ok? && "BRIEF" in t.rows[t.keys[i]]
    ensures IdLines(t, i + 1).Ok?
    ensures Concat(IdLines(t, i + 1).value)
      == Concat(IdLines(t, i).value) + IdLine(t.keys[i], t.rows[t.keys[i]]["BRIEF"], i + 1)
  {
    var ls := IdLines(t, i).value;
    var line := IdLine(t.keys[i], t.rows[t.keys[i]]["BRIEF"], i + 1);
    assert IdLines(t, i + 1).value == ls + [line];
    ConcatSnoc(ls, line);
  }

  lemma CharIdListOk(t: Table)
    requires Keyed(t) && IdLines(t, |t.keys|).Ok?
    ensures CharIdList(t) == Ok(CharIdsHead + Concat(IdLines(t, |t.keys|).value) + CountText(|t.keys|))
  {
  }

  /** A profile without BRIEF makes the whole list fail. */
  lemma IdLinesMissing(t: Table, i: nat)
    requires Keyed(t) && i < |t.keys| && "BRIEF" !in t.rows[t.keys[i]]
    ensures CharIdList(t) == Err(MissingKey("BRIEF"))
  {
    assert !("BRIEF" in t.rows[t.keys[i]]);
  }

  /** The loop with its counter `num`, which stays -1 for an empty table, and
      the NUM_CHAR_IDS line built from `num + 1`. */
  method ListCharIds(charIds: Table) returns (r: Result<string>)
    requires Keyed(charIds)
    ensures r == CharIdList(charIds)
  {
    var code := CharIdsHead;
    var num: int := -1;
    var i := 0;
    while i < |charIds.keys|
      invariant 0 <= i <= |charIds.keys| && num == i - 1
      invariant IdLines(charIds, i).Ok?
      invariant code == CharIdsHead + Concat(IdLines(charIds, i).value)
    {
      num := i;
      var brief := Lookup(charIds.rows[charIds.keys[i]], "BRIEF");
      if brief.Err? {
        IdLinesMissing(charIds, i);
        return Err(brief.error);
      }
      IdLinesStep(charIds, i);
      Assoc(CharIdsHead, Concat(IdLines(charIds, i).value), IdLine(charIds.keys[i], brief.value, num + 1));
      code := code + IdLine(charIds.keys[i], brief.value, num + 1);
      i := i + 1;
    }
    CharIdListOk(charIds);
    code := code + CountText(num + 1);
    return Ok(code);
  }

  // ---------------------------------------------------------------------
  // The include chains (generate.py:229-235, 299-304)

  /** One `#elif (CHAR_ID == <id>)` branch including the profile's file,
      named after the lower-cased identifier. */
  function IncludeEntry(id: string, ext: string): string {
    ElifLine(id) + "\n" + IncludeLine(id, ext) + "\n"
  }

  function ElifLine(id: string): string {
    "#elif (CHAR_ID == " + id + ")"
  }

  function IncludeLine(id: string, ext: string): string {
    "    #include \"characterizations/" + Lower(id) + ext + "\""
  }

  /** The branches of all profiles, in table order. */
  function IncludeChain(ids: seq<string>, ext: string): string
    decreases |ids|
  {
    if |ids| == 0 then "" else IncludeChain(ids[..|ids| - 1], ext) + IncludeEntry(ids[|ids| - 1], ext)
  }

  /** `for char_id in char_ids: code += ...`: one branch per profile, in order. */
  method AppendIncludes(code: string, ids: seq<string>, ext: string) returns (r: string)
    ensures r == code + IncludeChain(ids, ext)
  {
    r := code;
    var i := 0;
    while i < |ids|
      invariant 0 <= i <= |ids|
      invariant r == code + IncludeChain(ids[..i], ext)
    {
      ChainStep(ids, i, ext);
      Assoc(code, IncludeChain(ids[..i], ext), IncludeEntry(ids[i], ext));
      r := r + IncludeEntry(ids[i], ext);
      i := i + 1;
    }
    assert ids[..i] == ids;
  }

  lemma ChainStep(ids: seq<string>, i: nat, ext: string)
    requires i < |ids|
    ensures IncludeChain(ids[..i + 1], ext) == IncludeChain(ids[..i], ext) + IncludeEntry(ids[i], ext)
  {
    assert ids[..i + 1][..i] == ids[..i];
  }

  /** The lines of a chain of branches: line 2i tests the i-th profile
      and line 2i+1 includes its file. */
  function ChainLines(ids: seq<string>, ext: string): (r: seq<string>)
    ensures |r| == 2 * |ids|
    ensures forall i :: 0 <= i < |ids| ==> r[2 * i] == ElifLine(ids[i]) && r[2 * i + 1] == IncludeLine(ids[i], ext)
    decreases |ids|
  {
    if |ids| == 0 then []
    else ChainLines(ids[..|ids| - 1], ext) + [ElifLine(ids[|ids| - 1]), IncludeLine(ids[|ids| - 1], ext)]
  }

  lemma LowerNoNewline(s: string)
    requires '\n' !in s
    ensures '\n' !in Lower(s)
  {
    forall i | 0 <= i < |s|
      ensures Lower(s)[i] != '\n'
    {
      assert s[i] != '\n';
    }
  }

  lemma {:induction false} ChainSplit(ids: seq<string>, ext: string, s: string)
    requires forall i :: 0 <= i < |ids| ==> '\n' !in ids[i]
    requires '\n' !in ext
    ensures Split(IncludeChain(ids, ext) + s, '\n') == ChainLines(ids, ext) + Split(s, '\n')
    decreases |ids|
  {
    if |ids| == 0 {
      assert IncludeChain(ids, ext) + s == s;
    } else {
      var front := ids[..|ids| - 1];
      var id := ids[|ids| - 1];
      Assoc(IncludeChain(front, ext), IncludeEntry(id, ext), s);
      ChainSplit(front, ext, IncludeEntry(id, ext) + s);
      EntrySplit(id, ext, s);
      SeqAssoc(ChainLines(front, ext), [ElifLine(id), IncludeLine(id, ext)], Split(s, '\n'));
    }
  }

  lemma EntrySplit(id: string, ext: string, s: string)
    requires '\n' !in id && '\n' !in ext
    ensures Split(IncludeEntry(id, ext) + s, '\n') == [ElifLine(id), IncludeLine(id, ext)] + Split(s, '\n')
  {
    ElifOneLine(id);
    IncludeOneLine(id, ext);
    TwoLines(ElifLine(id), IncludeLine(id, ext), s);
  }

  lemma ElifOneLine(id: string)
    requires '\n' !in id
    ensures '\n' !in ElifLine(id)
  {
  }

  lemma IncludeOneLine(id: string, ext: string)
    requires '\n' !in id && '\n' !in ext
    ensures '\n' !in IncludeLine(id, ext)
  {
    LowerNoNewline(id);
  }

  /** Two lines, each ended by a line break, in front of `s`. */
  lemma TwoLines(a: string, b: string, s: string)
    requires '\n' !in a && '\n' !in b
    ensures Split(a + "\n" + b + "\n" + s, '\n') == [a, b] + Split(s, '\n')
  {
    var tail := b + "\n" + s;
    assert a + "\n" + b + "\n" + s == a + "\n" + tail;
    SplitAppend(a, tail, '\n');
    SplitAppend(b, s, '\n');
  }

  /** An include chain is exactly two lines per profile, in table order: the
      `#elif (CHAR_ID == <id>)` test and the #include of
      characterizations/<lower-case id><ext>. */
  lemma IncludeChainLines(ids: seq<string>, ext: string)
    requires forall i :: 0 <= i < |ids| ==> '\n' !in ids[i]
    requires '\n' !in ext
    ensures Split(IncludeChain(ids, ext), '\n') == ChainLines(ids, ext) + [""]
  {
    ChainSplit(ids, ext, "");
    assert IncludeChain(ids, ext) + "" == IncludeChain(ids, ext);
  }

  // ---------------------------------------------------------------------
  // Lines hoisted by the TOP_C marker (generate.py:355-361)

  const Marker: string := "TOP_C: "

  /** The group of `TOP_C: (.*?)(?:\s*\*\/)?$` on the text after the marker
      of one line: the shortest prefix after which only blanks and a closing
      star-slash, or nothing, remain. */
  function CaptureText(rest: string): (g: string)
    ensures |g| <= |rest| && rest[..|g|] == g
    ensures |g| < |rest| ==> |rest| >= 2 && rest[|rest| - 2..] == "*/"
                             && (forall i :: |g| <= i < |rest| - 2 ==> IsPySpace(rest[i]))
                             && (|g| == 0 || !IsPySpace(g[|g| - 1]))
  {
    if |rest| >= 2 && rest[|rest| - 2..] == "*/" then RStrip(rest[..|rest| - 2]) else rest
  }

  /** What the regular expression captures on one line: the first marker
      starts the match, which runs to the end of the line. */
  function Capture(line: string): Option<string>
    decreases |line|
  {
    if StartsWith(line, Marker) then Some(CaptureText(line[|Marker|..]))
    else if |line| == 0 then None
    else Capture(line[1..])
  }

  /** re.findall over the lines, in order. */
  function Captures(lines: seq<string>): seq<string>
    decreases |lines|
  {
    if |lines| == 0 then []
    else
      var front := Captures(lines[..|lines| - 1]);
      match Capture(lines[|lines| - 1])
      case None => front
      case Some(g) => front + [g]
  }

  function TopC(code: string): seq<string> {
    Captures(Split(code, '\n'))
  }

  /** necessary_headers: the captures, one per line. */
  function NecessaryHeaders(code: string): string {
    Join(TopC(code), "\n") + "\n"
  }

  /** After a prefix in which no marker can begin, the capture is taken
      from the marker that opens the rest. */
  lemma {:induction false} CaptureAfter(pre: string, after: string)
    requires NoStartIn(pre, Marker) && StartsWith(after, Marker)
    ensures Capture(pre + after) == Some(CaptureText(after[|Marker|..]))
    decreases |pre|
  {
    if |pre| == 0 {
      assert pre + after == after;
    } else {
      DiffersNoStart(pre, after, Marker);
      assert (pre + after)[1..] == pre[1..] + after;
      CaptureAfter(pre[1..], after);
    }
  }

  /** A marked line ending in a comment close: the text between the marker
      and the blanks before the close is captured. */
  lemma CaptureClosed(pre: string, text: string)
    requires NoStartIn(pre, Marker)
    requires |text| == 0 || !IsPySpace(text[|text| - 1])
    ensures Capture(pre + Marker + text + " */") == Some(text)
  {
    Regroup(pre, Marker, text, " */");
    MarkerOpens(text + " */");
    CaptureAfter(pre, Marker + (text + " */"));
    ClosedText(text);
  }

  /** The blanks before a comment close are not part of the capture. */
  lemma ClosedText(text: string)
    requires |text| == 0 || !IsPySpace(text[|text| - 1])
    ensures CaptureText(text + " */") == text
  {
    var rest := text + " */";
    assert rest[|rest| - 2..] == "*/";
    assert rest[..|rest| - 2] == text + " ";
    assert (text + " ")[..|text|] == text;
  }

  /** A marked line with no comment close: everything after the marker is
      captured. */
  lemma CaptureOpen(pre: string, text: string)
    requires NoStartIn(pre, Marker)
    requires !(|text| >= 2 && text[|text| - 2..] == "*/")
    ensures Capture(pre + Marker + text) == Some(text)
  {
    Assoc(pre, Marker, text);
    MarkerOpens(text);
    CaptureAfter(pre, Marker + text);
    OpenText(text);
  }

  /** Without a comment close everything after the marker is captured. */
  lemma OpenText(text: string)
    requires !(|text| >= 2 && text[|text| - 2..] == "*/")
    ensures CaptureText(text) == text
  {
  }

  lemma MarkerOpens(rest: string)
    ensures StartsWith(Marker + rest, Marker) && (Marker + rest)[|Marker|..] == rest
  {
    assert (Marker + rest)[..|Marker|] == Marker;
  }

  /** Text that starts with something other than 'T' does not start a marker. */
  lemma NotMarker(c: char, s: string)
    requires c != 'T'
    ensures !StartsWith([c] + s, Marker)
  {
    assert |Marker| <= |[c] + s| ==> ([c] + s)[..|Marker|][0] == c;
  }

  /** A line without a 'T' captures nothing. */
  lemma {:induction false} CaptureFree(line: string)
    requires 'T' !in line
    ensures Capture(line) == None
    decreases |line|
  {
    if |line| > 0 {
      NotMarker(line[0], line[1..]);
      assert [line[0]] + line[1..] == line;
      CaptureFree(line[1..]);
    }
  }

  /** Blanks in front of a line do not change its capture. */
  lemma {:induction false} CaptureShift(p: string, line: string)
    requires 'T' !in p
    ensures Capture(p + line) == Capture(line)
    decreases |p|
  {
    if |p| == 0 {
      assert p + line == line;
    } else {
      NotMarker(p[0], p[1..] + line);
      assert [p[0]] + (p[1..] + line) == p + line;
      assert (p + line)[1..] == p[1..] + line;
      CaptureShift(p[1..], line);
    }
  }

  /** The captures of two runs of lines are those of the first, then those
      of the second. */
  lemma {:induction false} CapturesAppend(a: seq<string>, b: seq<string>)
    ensures Captures(a + b) == Captures(a) + Captures(b)
    decreases |b|
  {
    if |b| == 0 {
      assert a + b == a;
    } else {
      var b' := b[..|b| - 1];
      assert (a + b)[..|a + b| - 1] == a + b';
      assert (a + b)[|a + b| - 1] == b[|b| - 1];
      CapturesAppend(a, b');
    }
  }

  /** Indenting every line keeps the captures. */
  lemma {:induction false} CapturesPrefixed(p: string, lines: seq<string>)
    requires 'T' !in p
    ensures Captures(Prefixed(p, lines)) == Captures(lines)
    decreases |lines|
  {
    if |lines| > 0 {
      var front := lines[..|lines| - 1];
      assert Prefixed(p, lines)[..|lines| - 1] == Prefixed(p, front);
      CapturesPrefixed(p, front);
      CaptureShift(p, lines[|lines| - 1]);
    }
  }

  /** apply_indent does not change what the marker captures. */
  lemma IndentTopC(code: string, indent: nat)
    ensures TopC(ApplyIndent(code, indent)) == TopC(code)
  {
    ApplyIndentLines(code, indent);
    CapturesPrefixed(Repeat(' ', indent), Split(code, '\n'));
  }

  /** The text of a fragment without its final line break. */
  function Chomp(x: string): string {
    if |x| > 0 && x[|x| - 1] == '\n' then x[..|x| - 1] else x
  }

  predicate Lined(x: string) {
    |x| > 0 && x[|x| - 1] == '\n'
  }

  /** The lines of fragments that each end in a line break. */
  function PieceLines(ps: seq<string>): seq<string>
    decreases |ps|
  {
    if |ps| == 0 then [] else PieceLines(ps[..|ps| - 1]) + Split(Chomp(ps[|ps| - 1]), '\n')
  }

  /** The captures of fragments, fragment by fragment, in order. */
  function FlatTopC(ps: seq<string>): seq<string>
    decreases |ps|
  {
    if |ps| == 0 then [] else FlatTopC(ps[..|ps| - 1]) + TopC(Chomp(ps[|ps| - 1]))
  }

  lemma {:induction false} SplitPieces(ps: seq<string>, s: string)
    requires forall i :: 0 <= i < |ps| ==> Lined(ps[i])
    ensures Split(Concat(ps) + s, '\n') == PieceLines(ps) + Split(s, '\n')
    decreases |ps|
  {
    if |ps| == 0 {
      assert Concat(ps) + s == s;
    } else {
      var front := ps[..|ps| - 1];
      var last := ps[|ps| - 1];
      assert last == Chomp(last) + "\n";
      assert Concat(ps) + s == Concat(front) + (Chomp(last) + "\n" + s);
      SplitPieces(front, Chomp(last) + "\n" + s);
      SplitAround(Chomp(last), s, '\n');
    }
  }

  lemma {:induction false} CapturesPieceLines(ps: seq<string>)
    ensures Captures(PieceLines(ps)) == FlatTopC(ps)
    decreases |ps|
  {
    if |ps| > 0 {
      var front := ps[..|ps| - 1];
      CapturesPieceLines(front);
      CapturesAppend(PieceLines(front), Split(Chomp(ps[|ps| - 1]), '\n'));
    }
  }

  /** The captures of a run of line-ended fragments followed by `s`. */
  lemma PiecesTopC(ps: seq<string>, s: string)
    requires forall i :: 0 <= i < |ps| ==> Lined(ps[i])
    ensures TopC(Concat(ps) + s) == FlatTopC(ps) + TopC(s)
  {
    SplitPieces(ps, s);
    CapturesAppend(PieceLines(ps), Split(s, '\n'));
    CapturesPieceLines(ps);
  }

  // ---------------------------------------------------------------------
  // The four files

  /** write_characterization_header (generate.py:121-244): the boilerplate,
      the documentation of every toggle, the numbered profiles and the
      include chain of the profile headers. */
  function CharacterizationHeader(defaults: Table, charIds: Table): (r: Result<Artifact>)
    requires Keyed(defaults) && Keyed(charIds)
    ensures r.Ok? ==> Clean(r.value.code)
  {
    var docs :- Pieces(Fragment(DocPiece, None), RowsOf(defaults));
    var ids :- CharIdList(charIds);
    var text := HeaderText(docs, ids, charIds.keys);
    CleanCodeSpec(text);
    Ok(Artifact("include/toggle.h", CleanCode(text)))
  }

  /** toggle.h before clean_code: the option documentation, the profile list
      and the include chain between the file's fixed parts. */
  function HeaderText(docs: seq<string>, ids: string, keys: seq<string>): string {
    var optionDoc := OptionDocHead + Concat(docs) + ApplyIndent(ResetDecl, 4) + OptionDocTail;
    var includes := HeaderIncludesHead + IncludeChain(keys, ".h") + HeaderIncludesTail;
    ToggleBegin + optionDoc + ids + includes + ToggleEnd
  }

  method WriteCharacterizationHeader(defaults: Table, charIds: Table) returns (r: Result<Artifact>)
    requires Keyed(defaults) && Keyed(charIds)
    ensures r == CharacterizationHeader(defaults, charIds)
  {
    var doc := AppendPieces(OptionDocHead, Fragment(DocPiece, None), defaults);
    if doc.Err? {
      return Err(doc.error);
    }
    var optionDoc := doc.value + ApplyIndent(ResetDecl, 4) + OptionDocTail;
    var ids := ListCharIds(charIds);
    if ids.Err? {
      return Err(ids.error);
    }
    var includes := AppendIncludes(HeaderIncludesHead, charIds.keys, ".h");
    includes := includes + HeaderIncludesTail;
    var code := ToggleBegin + optionDoc + ids.value + includes + ToggleEnd;
    return Ok(Artifact("include/toggle.h", CleanCode(code)));
  }

  /** write_characterization_source (generate.py:277-312): the include chain
      of the profile sources; the toggle table is not used. */
  function CharacterizationSource(charIds: Table): (a: Artifact)
    ensures Clean(a.code)
  {
    var includes := SourceIncludesHead + IncludeChain(charIds.keys, ".c") + SourceIncludesTail;
    CleanCodeSpec(SourceBegin + includes);
    Artifact("src/toggle.c", CleanCode(SourceBegin + includes))
  }

  method WriteCharacterizationSource(defaults: Table, charIds: Table) returns (a: Artifact)
    ensures a == CharacterizationSource(charIds)
  {
    var includes := AppendIncludes(SourceIncludesHead, charIds.keys, ".c");
    includes := includes + SourceIncludesTail;
    var code := SourceBegin + includes;
    assert code == SourceBegin + includes + "";
    return Artifact("src/toggle.c", CleanCode(code));
  }

  /** write_char_id_header (generate.py:372-422): guard and file comment, a
      commented declaration of every toggle, and the reset declaration for a
      testing profile. */
  function CharIdHeader(defaults: Table, charId: Row): (r: Result<Artifact>)
    requires Keyed(defaults)
    ensures r.Ok? ==> Clean(r.value.code)
  {
    var id :- Lookup(charId, "CHAR_ID");
    var fileName := Lower(id) + ".h";
    var guard := "CHARACTERIZATIONS_" + Upper(id) + "_H";
    var brief :- Lookup(charId, "BRIEF");
    var descr :- Lookup(charId, "DESCRIPTION");
    var decls :- Pieces(Fragment(DeclPiece, Some(charId)), RowsOf(defaults));
    var testing :- IsTesting(Some(charId));
    var option := Concat(decls) + (if testing then ApplyIndent(ResetDecl, 0) else "");
    var text := GuardOpen(guard, fileName, brief, descr) + option + GuardClose(guard);
    CleanCodeSpec(text);
    Ok(Artifact("include/characterizations/" + fileName, CleanCode(text)))
  }

  method WriteCharIdHeader(defaults: Table, charId: Row) returns (r: Result<Artifact>)
    requires Keyed(defaults)
    ensures r == CharIdHeader(defaults, charId)
  {
    var id := Lookup(charId, "CHAR_ID");
    if id.Err? {
      return Err(id.error);
    }
    var fileName := Lower(id.value) + ".h";
    var guard := "CHARACTERIZATIONS_" + Upper(id.value) + "_H";
    var brief := Lookup(charId, "BRIEF");
    if brief.Err? {
      return Err(brief.error);
    }
    var descr := Lookup(charId, "DESCRIPTION");
    if descr.Err? {
      return Err(descr.error);
    }
    var codeBegin := GuardOpen(guard, fileName, brief.value, descr.value);
    var codeEnd := GuardClose(guard);
    var option := AppendPieces("", Fragment(DeclPiece, Some(charId)), defaults);
    if option.Err? {
      return Err(option.error);
    }
    var decls := Pieces(Fragment(DeclPiece, Some(charId)), RowsOf(defaults)).value;
    assert option.value == Concat(decls);
    var codeOption := option.value;
    var testing := IsTesting(Some(charId));
    if testing.Err? {
      return Err(testing.error);
    }
    if testing.value {
      codeOption := codeOption + ApplyIndent(ResetDecl, 0);
    }
    assert codeOption == Concat(decls) + (if testing.value then ApplyIndent(ResetDecl, 0) else "");
    return Ok(Artifact("include/characterizations/" + fileName, CleanCode(codeBegin + codeOption + codeEnd)));
  }

  /** The option text of write_char_id_source (generate.py:326-350): the
      definition of every toggle and, for a testing profile, the function
      testing_reset_toggles assigning every toggle. */
  function CharIdSourceBody(defaults: Table, charId: Row): Result<string>
    requires Keyed(defaults)
  {
    var defs :- Pieces(Fragment(DefPiece, Some(charId)), RowsOf(defaults));
    var testing :- IsTesting(Some(charId));
    if testing then
      var assigns :- Pieces(Fragment(AssignPiece, Some(charId)), RowsOf(defaults));
      Ok(SourceBody(defs, assigns, true))
    else Ok(SourceBody(defs, [], false))
  }

  /** The option text of a profile source from its fragments. */
  function SourceBody(defs: seq<string>, assigns: seq<string>, testing: bool): string {
    Concat(defs) + (if testing then ResetFnHead + Concat(assigns) + ResetFnTail else "")
  }

  /** write_char_id_source (generate.py:315-369): the hoisted TOP_C text
      first, then the option text. */
  function CharIdSource(defaults: Table, charId: Row): (r: Result<Artifact>)
    requires Keyed(defaults)
    ensures r.Ok? ==> Clean(r.value.code)
  {
    var id :- Lookup(charId, "CHAR_ID");
    var body :- CharIdSourceBody(defaults, charId);
    Ok(SourceFile(id, body))
  }

  /** The profile source of a profile and its option text. */
  function SourceFile(id: string, body: string): (a: Artifact)
    ensures Clean(a.code)
  {
    CleanCodeSpec(NecessaryHeaders(body) + body);
    Artifact("src/characterizations/" + Lower(id) + ".c", CleanCode(NecessaryHeaders(body) + body))
  }

  /** The two loops of write_char_id_source and the testing check between
      them. */
  method SourceOption(defaults: Table, charId: Row) returns (r: Result<string>)
    requires Keyed(defaults)
    ensures r == CharIdSourceBody(defaults, charId)
  {
    var option := AppendPieces("", Fragment(DefPiece, Some(charId)), defaults);
    if option.Err? {
      return Err(option.error);
    }
    var defs := Pieces(Fragment(DefPiece, Some(charId)), RowsOf(defaults)).value;
    assert option.value == Concat(defs);
    var codeOption := option.value;
    var testing := IsTesting(Some(charId));
    if testing.Err? {
      return Err(testing.error);
    }
    if !testing.value {
      assert codeOption == SourceBody(defs, [], false);
      return Ok(codeOption);
    }
    var reset := AppendPieces(codeOption + ResetFnHead, Fragment(AssignPiece, Some(charId)), defaults);
    if reset.Err? {
      return Err(reset.error);
    }
    var assigns := Pieces(Fragment(AssignPiece, Some(charId)), RowsOf(defaults)).value;
    assert reset.value == codeOption + ResetFnHead + Concat(assigns);
    codeOption := reset.value + ResetFnTail;
    Regroup(Concat(defs), ResetFnHead, Concat(assigns), ResetFnTail);
    return Ok(codeOption);
  }

  method WriteCharIdSource(defaults: Table, charId: Row) returns (r: Result<Artifact>)
    requires Keyed(defaults)
    ensures r == CharIdSource(defaults, charId)
  {
    var id := Lookup(charId, "CHAR_ID");
    if id.Err? {
      return Err(id.error);
    }
    var option := SourceOption(defaults, charId);
    if option.Err? {
      return Err(option.error);
    }
    return Ok(SourceFile(id.value, option.value));
  }

  // ---------------------------------------------------------------------
  // Hoisting in the profile source

  /** A line without a marker in front of `s` adds no capture. */
  lemma LeadLine(l: string, s: string)
    requires 'T' !in l && '\n' !in l
    ensures TopC(l + "\n" + s) == TopC(s)
  {
    SplitAppend(l, s, '\n');
    CapturesAppend([l], Split(s, '\n'));
    CaptureFree(l);
    assert Captures([l]) == [];
  }

  lemma EmptyTopC()
    ensures TopC("") == []
  {
    CaptureFree("");
  }

  /** The captures of testing_reset_toggles are those of its assignments. */
  lemma ResetLineFree()
    ensures 'T' !in ResetFnLine && '\n' !in ResetFnLine
  {
  }

  lemma ResetShape(mid: string)
    ensures ResetFnHead + mid + ResetFnTail == "" + "\n" + (ResetFnLine + "\n" + ("{" + "\n" + (mid + ("}" + "\n" + ""))))
  {
  }

  lemma ResetTopC(assigns: seq<string>)
    requires forall i :: 0 <= i < |assigns| ==> Lined(assigns[i])
    ensures TopC(ResetFnHead + Concat(assigns) + ResetFnTail) == FlatTopC(assigns)
  {
    var tail := Concat(assigns) + ("}" + "\n" + "");
    ResetShape(Concat(assigns));
    ResetLineFree();
    LeadLine("", ResetFnLine + "\n" + ("{" + "\n" + tail));
    LeadLine(ResetFnLine, "{" + "\n" + tail);
    BraceTopC(assigns);
  }

  /** The braces of the reset function hold no marker. */
  lemma BraceTopC(assigns: seq<string>)
    requires forall i :: 0 <= i < |assigns| ==> Lined(assigns[i])
    ensures TopC("{" + "\n" + (Concat(assigns) + ("}" + "\n" + ""))) == FlatTopC(assigns)
  {
    LeadLine("{", Concat(assigns) + ("}" + "\n" + ""));
    PiecesTopC(assigns, "}" + "\n" + "");
    LeadLine("}", "");
    EmptyTopC();
    assert FlatTopC(assigns) + [] == FlatTopC(assigns);
  }

  /** A definition fragment is the toggle's C definition and a line break. */
  lemma DefPieceText(data: Row, p: Option<Row>)
    requires PieceOf(DefPiece, data, p).Ok?
    ensures FormatCDefinition(data, p).Ok?
    ensures PieceOf(DefPiece, data, p).value == FormatCDefinition(data, p).value + "\n"
    ensures Lined(PieceOf(DefPiece, data, p).value)
    ensures Chomp(PieceOf(DefPiece, data, p).value) == FormatCDefinition(data, p).value
  {
    var x := FormatCDefinition(data, p).value;
    assert (x + "\n")[..|x|] == x;
  }

  /** An assignment fragment is the indented C assignment and a line
      break; the indentation changes no capture. */
  lemma AssignPieceText(data: Row, p: Option<Row>)
    requires PieceOf(AssignPiece, data, p).Ok?
    ensures FormatCAssignment(data, p).Ok?
    ensures PieceOf(AssignPiece, data, p).value == ApplyIndent(FormatCAssignment(data, p).value, 4) + "\n"
    ensures Lined(PieceOf(AssignPiece, data, p).value)
    ensures TopC(Chomp(PieceOf(AssignPiece, data, p).value)) == TopC(FormatCAssignment(data, p).value)
  {
    var x := ApplyIndent(FormatCAssignment(data, p).value, 4);
    assert (x + "\n")[..|x|] == x;
    IndentTopC(FormatCAssignment(data, p).value, 4);
  }

  lemma DefsLined(rows: seq<Row>, p: Option<Row>)
    requires Pieces(Fragment(DefPiece, p), rows).Ok?
    ensures forall i :: 0 <= i < |rows| ==> Lined(Pieces(Fragment(DefPiece, p), rows).value[i])
  {
    forall i | 0 <= i < |rows|
      ensures Lined(Pieces(Fragment(DefPiece, p), rows).value[i])
    {
      DefPieceText(rows[i], p);
    }
  }

  lemma AssignsLined(rows: seq<Row>, p: Option<Row>)
    requires Pieces(Fragment(AssignPiece, p), rows).Ok?
    ensures forall i :: 0 <= i < |rows| ==> Lined(Pieces(Fragment(AssignPiece, p), rows).value[i])
  {
    forall i | 0 <= i < |rows|
      ensures Lined(Pieces(Fragment(AssignPiece, p), rows).value[i])
    {
      AssignPieceText(rows[i], p);
    }
  }

  /** The TOP_C text hoisted to the top of a profile source: the captures of
      every toggle's definition in table order, then, for a testing profile,
      those of every assignment in table order. */
  lemma HoistedInOrder(defaults: Table, charId: Row)
    requires Keyed(defaults) && CharIdSourceBody(defaults, charId).Ok?
    ensures Pieces(Fragment(DefPiece, Some(charId)), RowsOf(defaults)).Ok? && IsTesting(Some(charId)).Ok?
    ensures IsTesting(Some(charId)).value ==> Pieces(Fragment(AssignPiece, Some(charId)), RowsOf(defaults)).Ok?
    ensures TopC(CharIdSourceBody(defaults, charId).value) ==
      FlatTopC(Pieces(Fragment(DefPiece, Some(charId)), RowsOf(defaults)).value)
      + (if IsTesting(Some(charId)).value
         then FlatTopC(Pieces(Fragment(AssignPiece, Some(charId)), RowsOf(defaults)).value) else [])
  {
    var p := Some(charId);
    var rows := RowsOf(defaults);
    var defs := Pieces(Fragment(DefPiece, p), rows).value;
    DefsLined(rows, p);
    var testing := IsTesting(p).value;
    var assigns := if testing then Pieces(Fragment(AssignPiece, p), rows).value else [];
    if testing {
      AssignsLined(rows, p);
    }
    assert CharIdSourceBody(defaults, charId).value == SourceBody(defs, assigns, testing);
    SourceBodyTopC(defs, assigns, testing);
  }

  lemma SourceBodyTopC(defs: seq<string>, assigns: seq<string>, testing: bool)
    requires forall i :: 0 <= i < |defs| ==> Lined(defs[i])
    requires forall i :: 0 <= i < |assigns| ==> Lined(assigns[i])
    ensures TopC(SourceBody(defs, assigns, testing)) == FlatTopC(defs) + (if testing then FlatTopC(assigns) else [])
  {
    var reset := if testing then ResetFnHead + Concat(assigns) + ResetFnTail else "";
    PiecesTopC(defs, reset);
    if testing {
      ResetTopC(assigns);
    } else {
      EmptyTopC();
    }
  }

  // ---------------------------------------------------------------------
  // Properties of the files

  /** A table built by the loaders has a row for every key. */
  lemma LoadedKeyed(t: Table, header: seq<string>, rows: seq<seq<string>>, pad: bool)
    requires forall i :: 0 <= i < |rows| ==> |rows[i]| > 0
    requires Holds(t, header, rows, pad)
    ensures Keyed(t)
  {
  }

  /** Without profiles the list is empty and NUM_CHAR_IDS is 0. */
  lemma NoProfiles(charIds: Table)
    requires Keyed(charIds) && |charIds.keys| == 0
    ensures CharIdList(charIds) == Ok(CharIdsHead + CountText(0))
    ensures NatToString(0) == "0"
  {
    assert CharIdsHead + Concat([]) == CharIdsHead;
  }
}
