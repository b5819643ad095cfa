/** The two input tables, from the rows csv.reader yields: read_csv_file
    with its csv_fix_chars pass, the loop of read_defaults (keyed on NAME)
    and the loop of read_char_ids (keyed on CHAR_ID).  A table is Python's insertion-ordered dict of
    dicts: the keys in order plus a map from key to row. */
module Tables {
  import opened Outcomes
  import opened Text

  /** One row as `dict(zip(header, row))`: column name to cell. */
  type Row = map<string, string>

  datatype Table = Table(keys: seq<string>, rows: map<string, Row>) {
    /** Keys are distinct and are exactly the keys of the map. */
    ghost predicate Valid() {
      Distinct(keys) && (forall k :: k in rows <==> k in keys)
    }
  }

  predicate Distinct(s: seq<string>) {
    forall i, j :: 0 <= i < j < |s| ==> s[i] != s[j]
  }

  // ---------------------------------------------------------------------
  // csv_fix_chars (generate.py:54-67)

  /** The substitutions, in dict order: opening and closing typographic
      quotes become '"' and the en dash becomes '-'. */
  const Substitutions: seq<(char, char)> :=
    [('\U{201C}', '"'), ('\U{201D}', '"'), ('\U{2013}', '-')]

  /** The first `n` substitutions applied to a cell with str.replace. */
  function FixWith(v: string, n: nat): string
    requires n <= |Substitutions|
  {
    if n == 0 then v
    else Replace(FixWith(v, n - 1), [Substitutions[n - 1].0], [Substitutions[n - 1].1])
  }

  function FixCell(v: string): string {
    FixWith(v, |Substitutions|)
  }

  /** The reference definition: each character on its own. */
  function FixChar(c: char): char {
    if c == '\U{201C}' || c == '\U{201D}' then '"' else if c == '\U{2013}' then '-' else c
  }

  function FixRow(row: seq<string>): (r: seq<string>)
    ensures |r| == |row| && forall i :: 0 <= i < |row| ==> r[i] == FixCell(row[i])
  {
    seq(|row|, i requires 0 <= i < |row| => FixCell(row[i]))
  }

  /** A substitution whose character does not occur in the original cell
      finds nothing in the partly fixed cell either. */
  lemma FixWithAbsent(v: string, n: nat, k: nat)
    requires n <= k < |Substitutions| && Substitutions[k].0 !in v
    ensures Substitutions[k].0 !in FixWith(v, n)
  {
    if n > 0 {
      FixWithAbsent(v, n - 1, k);
      ReplaceChar(FixWith(v, n - 1), Substitutions[n - 1].0, Substitutions[n - 1].1);
    }
  }

  /** The innermost loop of csv_fix_chars on one cell `v`: the `k in v`
      guard tests the cell as it was before any substitution. */
  method FixValue(v: string) returns (cell: string)
    ensures cell == FixCell(v)
  {
    cell := v;
    for s := 0 to |Substitutions|
      invariant cell == FixWith(v, s)
    {
      var (k, d) := Substitutions[s];
      if k in v {
        cell := Replace(cell, [k], [d]);
      } else {
        FixWithAbsent(v, s, s);
        ReplaceAbsent(cell, [k], [d]);
      }
    }
  }

  /** The loop over the cells of one row. */
  method FixCells(row: seq<string>) returns (fixed: seq<string>)
    ensures fixed == FixRow(row)
  {
    fixed := row;
    for i := 0 to |row|
      invariant |fixed| == |row|
      invariant forall j :: 0 <= j < i ==> fixed[j] == FixCell(row[j])
      invariant forall j :: i <= j < |row| ==> fixed[j] == row[j]
    {
      var cell := FixValue(row[i]);
      fixed := fixed[i := cell];
    }
  }

  /** csv_fix_chars: every cell of every row gets the three substitutions,
      in place. */
  method CsvFixChars(data: array<seq<string>>)
    modifies data
    ensures forall r :: 0 <= r < data.Length ==> data[r] == FixRow(old(data[r]))
  {
    for r := 0 to data.Length
      invariant forall q :: 0 <= q < r ==> data[q] == FixRow(old(data[q]))
      invariant forall q :: r <= q < data.Length ==> data[q] == old(data[q])
    {
      var fixed := FixCells(data[r]);
      data[r] := fixed;
    }
  }

  /** Every row after csv_fix_chars. */
  function FixRows(rows: seq<seq<string>>): (r: seq<seq<string>>)
    ensures |r| == |rows| && forall i :: 0 <= i < |rows| ==> r[i] == FixRow(rows[i])
  {
    seq(|rows|, i requires 0 <= i < |rows| => FixRow(rows[i]))
  }

  /** read_csv_file after csv.reader has split the file into `rows`: the
      list is fixed in place by csv_fix_chars, then split into the header
      and the data rows; a file without rows fails on `defaults[0]`. */
  method ReadCsvFile(rows: seq<seq<string>>) returns (r: Result<(seq<string>, seq<seq<string>>)>)
    ensures |rows| == 0 ==> r == Err(EmptyFile)
    ensures |rows| > 0 ==> r == Ok((FixRow(rows[0]), FixRows(rows[1..])))
  {
    var data := new seq<string>[|rows|](i requires 0 <= i < |rows| => rows[i]);
    CsvFixChars(data);
    if data.Length == 0 {
      return Err(EmptyFile);
    }
    var fixed := data[..];
    assert fixed == FixRows(rows);
    assert fixed[1..] == FixRows(rows[1..]);
    r := Ok((fixed[0], fixed[1..]));
  }

  /** The fix is the character-wise reference substitution. */
  lemma FixCellChars(v: string)
    ensures |FixCell(v)| == |v| && forall i :: 0 <= i < |v| ==> FixCell(v)[i] == FixChar(v[i])
  {
    var a := Replace(v, ['\U{201C}'], ['"']);
    assert a == FixWith(v, 1);
    var b := Replace(a, ['\U{201D}'], ['"']);
    assert b == FixWith(v, 2);
    var c := Replace(b, ['\U{2013}'], ['-']);
    assert c == FixWith(v, 3) == FixCell(v);
    ReplaceChar(v, '\U{201C}', '"');
    ReplaceChar(a, '\U{201D}', '"');
    ReplaceChar(b, '\U{2013}', '-');
  }

  /** No typographic quote or dash is left in a fixed cell. */
  lemma FixCellClean(v: string)
    ensures '\U{201C}' !in FixCell(v) && '\U{201D}' !in FixCell(v) && '\U{2013}' !in FixCell(v)
  {
    FixCellChars(v);
  }

  /** Fixing twice is fixing once. */
  lemma FixCellIdempotent(v: string)
    ensures FixCell(FixCell(v)) == FixCell(v)
  {
    var w := FixCell(v);
    FixCellChars(v);
    FixCellChars(w);
  }

  // ---------------------------------------------------------------------
  // Building a table

  function Min(a: nat, b: nat): nat {
    if a <= b then a else b
  }

  /** `dict(zip(header, row))`: zip stops at the shorter list and a later
      column of the same name overwrites an earlier one. */
  function ZipMap(header: seq<string>, row: seq<string>): Row
    decreases |header|
  {
    var n := Min(|header|, |row|);
    if n == 0 then map[]
    else ZipMap(header[..n - 1], row[..n - 1])[header[n - 1] := row[n - 1]]
  }

  /** The keys of `dict(zip(header, row))` are the header cells that have a
      row cell. */
  lemma {:induction false} ZipMapKeys(header: seq<string>, row: seq<string>)
    ensures forall k :: k in ZipMap(header, row) <==> exists i :: 0 <= i < Min(|header|, |row|) && header[i] == k
    decreases |header|
  {
    var n := Min(|header|, |row|);
    if n > 0 {
      ZipMapKeys(header[..n - 1], row[..n - 1]);
      assert forall i :: 0 <= i < n - 1 ==> header[..n - 1][i] == header[i];
    }
  }

  /** Each column holds the cell of its last occurrence in the header
      (for a header without repeats: the cell at the same position). */
  lemma {:induction false} ZipMapLookup(header: seq<string>, row: seq<string>, i: nat)
    requires i < Min(|header|, |row|)
    requires forall j :: i < j < Min(|header|, |row|) ==> header[j] != header[i]
    ensures header[i] in ZipMap(header, row) && ZipMap(header, row)[header[i]] == row[i]
    decreases |header|
  {
    var n := Min(|header|, |row|);
    if i < n - 1 {
      ZipMapLookup(header[..n - 1], row[..n - 1], i);
    }
  }

  /** A short row padded with empty cells up to `n` columns. */
  function Pad(row: seq<string>, n: nat): seq<string> {
    if |row| < n then row + seq(n - |row|, _ => "") else row
  }

  /** Padding keeps the row's own cells and fills up to `n` with "". */
  lemma PadCells(row: seq<string>, n: nat)
    ensures var r := Pad(row, n);
      && |r| == (if |row| < n then n else |row|)
      && r[..|row|] == row && forall i :: |row| <= i < |r| ==> r[i] == ""
  {
  }

  /** The rows read_defaults keeps: neither empty nor with an empty first cell. */
  function KeptRows(data: seq<seq<string>>): (r: seq<seq<string>>)
    ensures |r| <= |data| && forall i :: 0 <= i < |r| ==> |r[i]| > 0 && r[i][0] != ""
  {
    if |data| == 0 then []
    else
      var last := data[|data| - 1];
      KeptRows(data[..|data| - 1]) + (if |last| == 0 || last[0] == "" then [] else [last])
  }

  /** The first cells of rows that have one. */
  function Keys(rows: seq<seq<string>>): (r: seq<string>)
    requires forall i :: 0 <= i < |rows| ==> |rows[i]| > 0
    ensures |r| == |rows| && forall i :: 0 <= i < |rows| ==> r[i] == rows[i][0]
  {
    seq(|rows|, i requires 0 <= i < |rows| => rows[i][0])
  }

  /** The first element that repeats an earlier one, scanning from the left. */
  function FirstRepeat(s: seq<string>): Option<string> {
    if |s| == 0 then None
    else match FirstRepeat(s[..|s| - 1])
      case Some(x) => Some(x)
      case None => if s[|s| - 1] in s[..|s| - 1] then Some(s[|s| - 1]) else None
  }

  lemma {:induction false} FirstRepeatDistinct(s: seq<string>)
    ensures FirstRepeat(s) == None <==> Distinct(s)
  {
    if |s| > 0 {
      var p := s[..|s| - 1];
      FirstRepeatDistinct(p);
      assert forall i :: 0 <= i < |p| ==> p[i] == s[i];
      if FirstRepeat(p) == None && s[|s| - 1] in p {
        var i :| 0 <= i < |p| && p[i] == s[|s| - 1];
        assert s[i] == s[|s| - 1];
      }
    }
  }

  /** The repeated element really occurs twice. */
  lemma {:induction false} FirstRepeatTwice(s: seq<string>)
    requires FirstRepeat(s).Some?
    ensures exists i, j :: 0 <= i < j < |s| && s[i] == s[j] == FirstRepeat(s).value
  {
    var p := s[..|s| - 1];
    if FirstRepeat(p).Some? {
      FirstRepeatTwice(p);
      var i, j :| 0 <= i < j < |p| && p[i] == p[j] == FirstRepeat(p).value;
      assert s[i] == s[j];
    } else {
      var i :| 0 <= i < |p| && p[i] == s[|s| - 1];
      assert s[i] == s[|s| - 1];
    }
  }

  lemma FirstRepeatExtend(s: seq<string>, x: string)
    ensures FirstRepeat(s + [x]) == (if FirstRepeat(s).Some? then FirstRepeat(s) else if x in s then Some(x) else None)
  {
    assert (s + [x])[..|s|] == s;
  }

  lemma {:induction false} FirstRepeatPrefix(s: seq<string>, t: seq<string>)
    requires FirstRepeat(s).Some?
    ensures FirstRepeat(s + t) == FirstRepeat(s)
    decreases |t|
  {
    if |t| > 0 {
      var u := t[..|t| - 1];
      FirstRepeatPrefix(s, u);
      assert (s + t)[..|s + t| - 1] == s + u;
      assert FirstRepeat(s + t) == FirstRepeat(s + u);
    } else {
      assert s + t == s;
    }
  }

  lemma KeptRowsStep(data: seq<seq<string>>, i: nat)
    requires i < |data|
    ensures KeptRows(data[..i + 1]) ==
      KeptRows(data[..i]) + (if |data[i]| == 0 || data[i][0] == "" then [] else [data[i]])
  {
    assert data[..i + 1][..i] == data[..i];
  }

  lemma {:induction false} KeptRowsAppend(a: seq<seq<string>>, b: seq<seq<string>>)
    ensures KeptRows(a + b) == KeptRows(a) + KeptRows(b)
    decreases |b|
  {
    if |b| > 0 {
      var c := b[..|b| - 1];
      KeptRowsAppend(a, c);
      assert (a + b)[..|a + b| - 1] == a + c;
      assert (a + b)[|a + b| - 1] == b[|b| - 1];
      var last := b[|b| - 1];
      var tail := if |last| == 0 || last[0] == "" then [] else [last];
      assert KeptRows(a + b) == KeptRows(a + c) + tail;
      assert KeptRows(b) == KeptRows(c) + tail;
    } else {
      assert a + b == a;
    }
  }

  lemma KeysAppend(a: seq<seq<string>>, b: seq<seq<string>>)
    requires forall i :: 0 <= i < |a| ==> |a[i]| > 0
    requires forall i :: 0 <= i < |b| ==> |b[i]| > 0
    ensures Keys(a + b) == Keys(a) + Keys(b)
  {
  }

  /** The dict a row becomes: its cells under the header's names, after
      padding the row to the header's length when `pad`. */
  function Shape(header: seq<string>, row: seq<string>, pad: bool): Row {
    ZipMap(header, if pad then Pad(row, |header|) else row)
  }

  /** The table built from rows with distinct first cells: each row under
      its first cell, made into a dict after `shape`. */
  ghost predicate Holds(t: Table, header: seq<string>, rows: seq<seq<string>>, pad: bool)
    requires forall i :: 0 <= i < |rows| ==> |rows[i]| > 0
  {
    && t.keys == Keys(rows)
    && (forall k :: k in t.rows <==> k in t.keys)
    && forall i :: 0 <= i < |rows| ==>
         t.rows[rows[i][0]] == Shape(header, rows[i], pad)
  }

  /** Loop body shared by both readers: insert one row under its first cell,
      failing on a key seen before. */
  method Insert(t: Table, ghost header: seq<string>, ghost done: seq<seq<string>>, ghost pad: bool,
                row: seq<string>, cells: Row) returns (r: Result<Table>)
    requires forall i :: 0 <= i < |done| ==> |done[i]| > 0
    requires |row| > 0 && cells == Shape(header, row, pad)
    requires Holds(t, header, done, pad) && FirstRepeat(t.keys) == None
    ensures r.Err? <==> row[0] in Keys(done)
    ensures r.Err? ==> r.error == Duplicate(row[0])
    ensures r.Ok? ==> Holds(r.value, header, done + [row], pad) && FirstRepeat(r.value.keys) == None
  {
    var name := row[0];
    if name in t.rows {
      return Err(Duplicate(name));
    }
    InsertHolds(t, header, done, pad, row, cells);
    HoldsIntro(Table(t.keys + [name], t.rows[name := cells]), header, done + [row], pad);
    return Ok(Table(t.keys + [name], t.rows[name := cells]));
  }

  /** A row under a new first cell extends the table it is inserted in. */
  lemma InsertHolds(t: Table, header: seq<string>, done: seq<seq<string>>, pad: bool,
                    row: seq<string>, cells: Row)
    requires forall i :: 0 <= i < |done| ==> |done[i]| > 0
    requires |row| > 0 && cells == Shape(header, row, pad)
    requires Holds(t, header, done, pad) && FirstRepeat(t.keys) == None
    requires row[0] !in t.rows
    ensures t.keys + [row[0]] == Keys(done + [row])
    ensures forall k :: k in t.rows[row[0] := cells] <==> k in t.keys + [row[0]]
    ensures forall i :: 0 <= i < |done + [row]| ==>
      t.rows[row[0] := cells][(done + [row])[i][0]] == Shape(header, (done + [row])[i], pad)
    ensures FirstRepeat(t.keys + [row[0]]) == None
  {
    FirstRepeatExtend(Keys(done), row[0]);
    var m := t.rows[row[0] := cells];
    var all := done + [row];
    KeysAppend(done, [row]);
    assert Keys([row]) == [row[0]];
    forall i | 0 <= i < |all|
      ensures m[all[i][0]] == Shape(header, all[i], pad)
    {
      if i < |done| {
        assert all[i] == done[i];
        assert Keys(done)[i] == done[i][0];
      }
    }
  }

  /** A table built from rows with distinct first cells is a well-formed dict. */
  lemma HoldsValid(t: Table, header: seq<string>, rows: seq<seq<string>>, pad: bool)
    requires forall i :: 0 <= i < |rows| ==> |rows[i]| > 0
    requires Holds(t, header, rows, pad) && FirstRepeat(t.keys) == None
    ensures t.Valid()
  {
    FirstRepeatDistinct(t.keys);
  }

  lemma HoldsIntro(t: Table, header: seq<string>, rows: seq<seq<string>>, pad: bool)
    requires forall i :: 0 <= i < |rows| ==> |rows[i]| > 0
    requires t.keys == Keys(rows)
    requires forall k :: k in t.rows <==> k in t.keys
    requires forall i :: 0 <= i < |rows| ==> t.rows[rows[i][0]] == Shape(header, rows[i], pad)
    ensures Holds(t, header, rows, pad)
  {
  }

  // ---------------------------------------------------------------------
  // read_defaults (generate.py:74-96)

  /** What read_defaults makes of a header and data rows: an empty header
      or a first column other than NAME fails, then the first repeated NAME
      among the kept rows, or else the table of the kept, padded rows. */
  ghost predicate DefaultsRead(header: seq<string>, data: seq<seq<string>>, r: Result<Table>) {
    if |header| == 0 then r == Err(EmptyHeader)
    else if header[0] != "NAME" then r == Err(BadHeader("NAME"))
    else match FirstRepeat(Keys(KeptRows(data)))
      case Some(name) => r == Err(Duplicate(name))
      case None => r.Ok? && Holds(r.value, header, KeptRows(data), true) && r.value.Valid()
  }

  /** read_defaults on the rows csv.reader yields for the file. */
  method ReadDefaultsCsv(rows: seq<seq<string>>) returns (r: Result<Table>)
    ensures |rows| == 0 ==> r == Err(EmptyFile)
    ensures |rows| > 0 ==> DefaultsRead(FixRow(rows[0]), FixRows(rows[1..]), r)
  {
    var read := ReadCsvFile(rows);
    if read.Err? {
      return Err(read.error);
    }
    var (header, data) := read.value;
    r := ReadDefaults(header, data);
  }

  /** The loop of read_defaults: rows that are empty or have an empty NAME
      are skipped, short rows are padded with "", and a repeated NAME fails. */
  method ReadDefaults(header: seq<string>, data: seq<seq<string>>) returns (r: Result<Table>)
    ensures DefaultsRead(header, data, r)
  {
    if |header| == 0 {
      return Err(EmptyHeader);
    }
    if header[0] != "NAME" {
      return Err(BadHeader("NAME"));
    }
    r := InsertDefaults(header, data);
  }

  /** The loop of read_defaults over the data rows. */
  method InsertDefaults(header: seq<string>, data: seq<seq<string>>) returns (r: Result<Table>)
    ensures match FirstRepeat(Keys(KeptRows(data)))
      case Some(name) => r == Err(Duplicate(name))
      case None => r.Ok? && Holds(r.value, header, KeptRows(data), true) && r.value.Valid()
  {
    var t := Table([], map[]);
    ghost var done: seq<seq<string>> := [];
    for i := 0 to |data|
      invariant done == KeptRows(data[..i])
      invariant Holds(t, header, done, true) && FirstRepeat(t.keys) == None
    {
      KeptRowsStep(data, i);
      var next := DefaultsRow(t, header, done, data[i]);
      if next.Err? {
        DuplicateFound(data, i);
        return next;
      }
      t := next.value;
      if |data[i]| > 0 && data[i][0] != "" {
        done := done + [data[i]];
      }
    }
    SliceAll(data);
    HoldsValid(t, header, done, true);
    return Ok(t);
  }

  /** One pass of the loop of read_defaults: an empty row or one with an
      empty NAME is skipped, a short row is padded with "", and the row is
      inserted under its NAME. */
  method DefaultsRow(t: Table, header: seq<string>, ghost done: seq<seq<string>>, row: seq<string>)
    returns (r: Result<Table>)
    requires forall i :: 0 <= i < |done| ==> |done[i]| > 0
    requires Holds(t, header, done, true) && FirstRepeat(t.keys) == None
    ensures |row| == 0 || row[0] == "" ==> r == Ok(t)
    ensures |row| > 0 && row[0] != "" ==>
      && (r.Err? <==> row[0] in Keys(done))
      && (r.Err? ==> r.error == Duplicate(row[0]))
      && (r.Ok? ==> Holds(r.value, header, done + [row], true) && FirstRepeat(r.value.keys) == None)
  {
    if |row| == 0 || row[0] == "" {
      return Ok(t);
    }
    var cells := row;
    if |cells| < |header| {
      cells := cells + seq(|header| - |cells|, _ => "");
    }
    assert cells == Pad(row, |header|);
    r := Insert(t, header, done, true, row, ZipMap(header, cells));
  }

  /** A kept row whose NAME was seen before is the first repeat of the
      whole table. */
  lemma DuplicateFound(data: seq<seq<string>>, i: nat)
    requires i < |data| && |data[i]| > 0 && data[i][0] != ""
    requires FirstRepeat(Keys(KeptRows(data[..i]))) == None
    requires data[i][0] in Keys(KeptRows(data[..i]))
    ensures FirstRepeat(Keys(KeptRows(data))) == Some(data[i][0])
  {
    DuplicateAt(data, i);
    RepeatPersists(data, i + 1);
  }

  /** The repeat shows up at the row that repeats. */
  lemma DuplicateAt(data: seq<seq<string>>, i: nat)
    requires i < |data| && |data[i]| > 0 && data[i][0] != ""
    requires FirstRepeat(Keys(KeptRows(data[..i]))) == None
    requires data[i][0] in Keys(KeptRows(data[..i]))
    ensures FirstRepeat(Keys(KeptRows(data[..i + 1]))) == Some(data[i][0])
  {
    KeptRowsStep(data, i);
    var done := KeptRows(data[..i]);
    KeysAppend(done, [data[i]]);
    FirstRepeatExtend(Keys(done), data[i][0]);
  }

  lemma SliceSnoc<T>(s: seq<T>, i: nat)
    requires i < |s|
    ensures s[..i + 1] == s[..i] + [s[i]]
  {
  }

  lemma SliceAll<T>(s: seq<T>)
    ensures s[..|s|] == s
  {
  }

  lemma SliceJoin<T>(s: seq<T>, j: nat)
    requires j <= |s|
    ensures s[..j] + s[j..] == s
  {
  }

  /** A repeat among the first rows is the first repeat of the table. */
  lemma RepeatPersists(data: seq<seq<string>>, j: nat)
    requires j <= |data| && FirstRepeat(Keys(KeptRows(data[..j]))).Some?
    ensures FirstRepeat(Keys(KeptRows(data))) == FirstRepeat(Keys(KeptRows(data[..j])))
  {
    var a := KeptRows(data[..j]);
    var b := KeptRows(data[j..]);
    KeptRowsAppend(data[..j], data[j..]);
    SliceJoin(data, j);
    assert KeptRows(data) == a + b;
    KeysAppend(a, b);
    FirstRepeatPrefix(Keys(a), Keys(b));
  }

  // ---------------------------------------------------------------------
  // read_char_ids (generate.py:105-118)

  /** How far read_char_ids gets: the first row without cells (IndexError
      on `row[0]`) or the first repeated CHAR_ID, whichever comes first. */
  function CharIdFailure(data: seq<seq<string>>): Option<Error> {
    if |data| == 0 then None
    else
      var p := data[..|data| - 1];
      match CharIdFailure(p)
      case Some(e) => Some(e)
      case None =>
        var last := data[|data| - 1];
        if |last| == 0 then Some(EmptyRow)
        else if exists i :: 0 <= i < |p| && |p[i]| > 0 && p[i][0] == last[0] then Some(Duplicate(last[0]))
        else None
  }

  /** read_char_ids succeeds exactly on rows that all have cells and
      distinct first cells. */
  lemma {:induction false} CharIdFailureNone(data: seq<seq<string>>)
    ensures CharIdFailure(data) == None <==>
      (forall i :: 0 <= i < |data| ==> |data[i]| > 0) && (forall i, j :: 0 <= i < j < |data| && |data[i]| > 0 && |data[j]| > 0 ==> data[i][0] != data[j][0])
  {
    if |data| > 0 {
      var p := data[..|data| - 1];
      CharIdFailureNone(p);
      assert forall i :: 0 <= i < |p| ==> p[i] == data[i];
    }
  }

  /** What read_char_ids makes of a header and data rows: an empty header
      or a first column other than CHAR_ID fails, then the first empty row
      or repeated CHAR_ID, or else the table of all rows as they are. */
  ghost predicate CharIdsRead(header: seq<string>, data: seq<seq<string>>, r: Result<Table>) {
    if |header| == 0 then r == Err(EmptyHeader)
    else if header[0] != "CHAR_ID" then r == Err(BadHeader("CHAR_ID"))
    else match CharIdFailure(data)
      case Some(e) => r == Err(e)
      case None =>
        (forall i :: 0 <= i < |data| ==> |data[i]| > 0) && r.Ok? && Holds(r.value, header, data, false) && r.value.Valid()
  }

  /** read_char_ids on the rows csv.reader yields for the file. */
  method ReadCharIdsCsv(rows: seq<seq<string>>) returns (r: Result<Table>)
    ensures |rows| == 0 ==> r == Err(EmptyFile)
    ensures |rows| > 0 ==> CharIdsRead(FixRow(rows[0]), FixRows(rows[1..]), r)
  {
    var read := ReadCsvFile(rows);
    if read.Err? {
      return Err(read.error);
    }
    var (header, data) := read.value;
    r := ReadCharIds(header, data);
  }

  /** The loop of read_char_ids: no row is skipped or padded. */
  method ReadCharIds(header: seq<string>, data: seq<seq<string>>) returns (r: Result<Table>)
    ensures CharIdsRead(header, data, r)
  {
    if |header| == 0 {
      return Err(EmptyHeader);
    }
    if header[0] != "CHAR_ID" {
      return Err(BadHeader("CHAR_ID"));
    }
    r := InsertCharIds(header, data);
    if CharIdFailure(data) == None {
      CharIdsValid(r.value, header, data);
    }
  }

  /** A profile table read without failure is a well-formed dict. */
  lemma CharIdsValid(t: Table, header: seq<string>, data: seq<seq<string>>)
    requires forall i :: 0 <= i < |data| ==> |data[i]| > 0
    requires Holds(t, header, data, false) && CharIdFailure(data) == None
    ensures t.Valid()
  {
    CharIdFailureNone(data);
    assert forall i :: 0 <= i < |data| ==> t.keys[i] == data[i][0];
  }

  /** The loop of read_char_ids over the data rows. */
  method InsertCharIds(header: seq<string>, data: seq<seq<string>>) returns (r: Result<Table>)
    ensures match CharIdFailure(data)
      case Some(e) => r == Err(e)
      case None => (forall i :: 0 <= i < |data| ==> |data[i]| > 0) && r.Ok? && Holds(r.value, header, data, false)
  {
    var t := Table([], map[]);
    for i := 0 to |data|
      invariant CharIdFailure(data[..i]) == None
      invariant forall j :: 0 <= j < i ==> |data[j]| > 0
      invariant Holds(t, header, data[..i], false) && FirstRepeat(t.keys) == None
    {
      CharIdStep(data, i);
      var next := CharIdRow(t, header, data[..i], data[i]);
      if next.Err? {
        CharIdFailureAt(data, i);
        return next;
      }
      SliceSnoc(data, i);
      t := next.value;
      NonEmptyStep(data, i);
    }
    SliceAll(data);
    return Ok(t);
  }

  /** One pass of the loop of read_char_ids: a row without cells fails on
      `row[0]`, any other is inserted under its CHAR_ID. */
  method CharIdRow(t: Table, header: seq<string>, ghost done: seq<seq<string>>, row: seq<string>)
    returns (r: Result<Table>)
    requires forall i :: 0 <= i < |done| ==> |done[i]| > 0
    requires Holds(t, header, done, false) && FirstRepeat(t.keys) == None
    ensures |row| == 0 ==> r == Err(EmptyRow)
    ensures |row| > 0 ==>
      && (r.Err? <==> row[0] in Keys(done))
      && (r.Err? ==> r.error == Duplicate(row[0]))
      && (r.Ok? ==> Holds(r.value, header, done + [row], false) && FirstRepeat(r.value.keys) == None)
  {
    if |row| == 0 {
      return Err(EmptyRow);
    }
    r := Insert(t, header, done, false, row, ZipMap(header, row));
  }

  /** When `data[..i]` is fine and row `i` fails, that is the failure. */
  lemma {:induction false} CharIdFailureAt(data: seq<seq<string>>, i: nat)
    requires i < |data| && CharIdFailure(data[..i]) == None && CharIdFailure(data[..i + 1]).Some?
    ensures CharIdFailure(data) == CharIdFailure(data[..i + 1])
    decreases |data|
  {
    if |data| > i + 1 {
      var p := data[..|data| - 1];
      assert p[..i] == data[..i] && p[..i + 1] == data[..i + 1];
      CharIdFailureAt(p, i);
    } else {
      assert data[..i + 1] == data;
    }
  }

  lemma NonEmptyStep(data: seq<seq<string>>, i: nat)
    requires i < |data| && |data[i]| > 0 && forall j :: 0 <= j < i ==> |data[j]| > 0
    ensures forall j :: 0 <= j < i + 1 ==> |data[j]| > 0
  {
  }

  /** One more row of read_char_ids. */
  lemma CharIdStep(data: seq<seq<string>>, i: nat)
    requires i < |data| && CharIdFailure(data[..i]) == None
    requires forall j :: 0 <= j < i ==> |data[j]| > 0
    ensures CharIdFailure(data[..i + 1]) ==
      if |data[i]| == 0 then Some(EmptyRow)
      else if data[i][0] in Keys(data[..i]) then Some(Duplicate(data[i][0]))
      else None
  {
    var p := data[..i];
    assert data[..i + 1][..i] == p;
    assert data[..i + 1][i] == data[i];
    if |data[i]| > 0 {
      var k := Keys(p);
      if data[i][0] in k {
        var j :| 0 <= j < |k| && k[j] == data[i][0];
        assert |p[j]| > 0 && p[j][0] == data[i][0];
      }
    }
  }
}
