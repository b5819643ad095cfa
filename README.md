# Toggle generator: a Dafny model

`generate.py` turns two tab-separated tables into C sources that select a
device *characterization* at compile time:

- the toggle table (`csv/defaults.csv`) has one row per toggle: NAME, TYPE,
  DECL, DEFAULT, BRIEF, DESCRIPTION and the optional custom texts H, C and
  C_ASSIGN;
- the profile table (`csv/char_ids.csv`) has one row per profile: CHAR_ID,
  BRIEF, DESCRIPTION, an optional TESTING flag and override columns named
  after toggles.

From these the generator writes four kinds of files:

- `include/toggle.h`: documentation, the numbered profile list and an
  include chain;
- `src/toggle.c`: the matching source include chain;
- one header per profile, declaring every toggle;
- one source per profile, defining every toggle, with a
  `testing_reset_toggles` function for testing profiles and the `TOP_C:`
  texts of the fragments hoisted to the top.

The model has one module per concern:

| module | file | models |
|---|---|---|
| `Outcomes` | `outcomes.dfy` | exceptions the generator raises on bad input, as `Err` values |
| `Text` | `text.dfy` | `str.replace`, `split`, `join`, `strip`, `lower`, `upper`, `int()` and decimal formatting |
| `Comments` | `comments.dfy` | `apply_indent`, `format_comment`, `format_brief_descr_comment` |
| `Tables` | `tables.dfy` | `read_csv_file` after `csv.reader`, `csv_fix_chars`, `read_defaults`, `read_char_ids` |
| `Normalize` | `normalize.dfy` | `clean_code` |
| `Engine` | `engine.dfy` | `decl_dict`, `is_testing`, `get_value`, the VALUE override check, `format_ch_def_decl` and its three wrappers |
| `Assembly` | `assembly.dfy` | the four `write_*` content builders and the `TOP_C` hoist |

**Errors.** Every exception becomes an `Error` value, and the model reports
the same exception the generator raises first:

- a missing dict key raises `KeyError`: `MissingKey`;
- a bad TESTING cell makes `int()` raise `ValueError`: `BadTesting`;
- a failed assertion raises `AssertionError`: `BadHeader`, `Duplicate`,
  `ValueOverride`;
- an unsupported TYPE or DECL raises `NotImplementedError`:
  `UnsupportedType`, `UnsupportedDecl`;
- indexing a file without rows, an empty header or an empty profile row
  raises `IndexError`: `EmptyFile`, `EmptyHeader`, `EmptyRow`.

**Type tags.** `decl_dict` is kept as a table of C type and declarator
suffix per tag. `DeclDict` writes each entry as the type, ` @NAME@` and the
suffix, which gives the fifteen strings of the dict exactly.

**Tables.**

- A loaded table is a `Table(keys, rows)`. Its `keys` are in file order, as
  Python dicts iterate in insertion order, and `rows` maps each key to the
  row's cells.
- `ReadCsvFile` takes the rows `csv.reader` yields, fixes them in place
  with `CsvFixChars` and splits off the header, as `read_csv_file` does.
- `ReadDefaultsCsv` and `ReadCharIdsCsv` run it and then the loop of
  `read_defaults` or `read_char_ids`, so the loops see the fixed rows.
- The readers are methods with the source's loop. Their contracts give:
  - the resulting table, in terms of the kept rows, as a well-formed dict;
  - or the first error.

**Placeholders.** The theorems about the synthesized C text take a NAME
without `@` and a value in which `@CONST@` does not occur. NAME is a C
identifier. A value may hold any other text, `@` included, because each
`str.replace` scans only the text it is given. The `@CONST@` step, though,
runs over the inserted value too and rewrites a `@CONST@` found there
(`Engine.ConstInValue`).

**The four builders.** Each builder is specified by a function and
implemented by a method with the same loops as the source. The method is
proved equal to the function. The functions carry three properties:

- every file has the shape `clean_code` guarantees;
- the profile list is numbered from 1 and NUM_CHAR_IDS is the number of
  profiles;
- the hoisted `TOP_C` lines of a profile source are the captures of the
  definitions, in table order, then those of the assignments of a testing
  profile.

**Bare macros.** A bare `MACRO` toggle is never promoted to a variable,
even for an OPTION in a testing profile:

- `generate.py:520-522` clears `testing_changes` for `MACRO`;
- `generate.py:529-532` then gives it the `MACRO` base.

`Engine.BareMacroForms` states it.

## Model

| member | source | states |
|---|---|---|
| `Text.ReplaceAbsent` | generate.py:65-66 | replacing a pattern whose first character does not occur in the text leaves the text unchanged, so the `if k in v` guard changes nothing |
| `Text.ReplaceFirst` | generate.py:590-591 | `str.replace` substitutes the first occurrence after a prefix with none, then continues after it |
| `Text.ReplaceUnmatched` | generate.py:593-598 | text in which the pattern does not occur is left unchanged by `str.replace` |
| `Text.ReplaceChar` | generate.py:66 | replacing one character by another is a character-by-character swap |
| `Text.JoinSplit` | generate.py:274 | joining the parts of `split(sep)` with `sep` gives back the text |
| `Text.SplitJoin` | generate.py:274 | splitting a join of separator-free parts gives back the parts |
| `Text.SplitAround` | generate.py:356-357 | splitting at a separator splits each side separately |
| `Text.Split` | generate.py:274 | there is always at least one part, and no part contains the separator |
| `Text.LStrip` | generate.py:605 | the result is a suffix, everything removed is white space, and the result does not start with white space |
| `Text.RStrip` | generate.py:605 | the result is a prefix, everything removed is white space, and the result does not end with white space |
| `Text.StripFramed` | generate.py:605 | stripping text that neither starts nor ends with white space changes nothing |
| `Text.Lower` | generate.py:319 | same length, each character lowered |
| `Text.Upper` | generate.py:377 | same length, each character raised |
| `Text.NatToString` | generate.py:211 | the decimal text of a number is non-empty and all digits |
| `Text.ParseNatToString` | generate.py:456 | `int()` of the decimal text of n is n |
| `Text.NatToStringInjective` | generate.py:211-214 | different numbers get different decimal texts, so profile numbers are distinguishable |
| `Comments.ApplyIndentLines` | generate.py:272-274 | the lines of the indented text are the original lines, each led by `indent` spaces |
| `Comments.ApplyIndentZero` | generate.py:414 | indenting by 0 changes nothing |
| `Comments.FormatCommentLines` | generate.py:425-428 | the result is an empty line, then every line of the comment led by the indent and ` * ` |
| `Comments.DescriptionCommentText` | generate.py:266 | the description part is `\n * \n`, then every description line led by ` * ` |
| `Comments.BriefCommentLines` | generate.py:257-269 | the lines of a brief and description comment, with and without the `/** ... */` frame, for an empty and a non-empty description |
| `Tables.FixCellChars` | generate.py:54-67 | fixing a cell keeps its length and maps each character: typographic quotes become `"`, the en dash becomes `-` |
| `Tables.FixCellClean` | generate.py:56-61 | no typographic quote or en dash is left |
| `Tables.FixCellIdempotent` | generate.py:54-67 | fixing twice is fixing once |
| `Tables.FixValue` | generate.py:64-66 | the substitution loop over one cell yields the fixed cell |
| `Tables.FixCells` | generate.py:63-66 | the loop over a row fixes every cell |
| `Tables.CsvFixChars` | generate.py:62-67 | every row of the array is replaced, in place, by its fixed row |
| `Tables.ReadCsvFile` | generate.py:40-51 | a file without rows fails on `defaults[0]`; otherwise the header is the fixed first row and the data are the fixed remaining rows |
| `Tables.ZipMapKeys` | generate.py:94 | the row dict has exactly the header cells that have a matching row cell as keys |
| `Tables.ZipMapLookup` | generate.py:94 | a header cell not repeated later maps to the row cell in its column |
| `Tables.PadCells` | generate.py:85-89 | a short row is filled up to the header length with empty cells, and its own cells are kept |
| `Tables.KeptRows` | generate.py:82-84 | the kept rows are non-empty and have a non-empty first cell |
| `Tables.FirstRepeatDistinct` | generate.py:92 | no repeated key is found exactly when the keys are distinct |
| `Tables.Insert` | generate.py:91-94 | inserting a row fails exactly when its key was seen, with that key; otherwise the table holds the rows so far |
| `Tables.HoldsValid` | generate.py:91-94 | a table built from rows with distinct first cells has distinct keys, exactly the keys of its row map |
| `Tables.ReadDefaults` | generate.py:74-96 | errors for an empty header and a first column other than NAME; after that, the first repeated NAME among the kept rows, or a well-formed table of the kept, padded rows keyed by NAME in file order |
| `Tables.ReadDefaultsCsv` | generate.py:70-96 | a file without rows fails; otherwise `read_defaults`' outcome on the fixed header and the fixed data rows |
| `Tables.InsertDefaults` | generate.py:81-96 | the loop over the data rows ends in the first repeated NAME among the kept rows, or in a table of exactly the kept, padded rows |
| `Tables.DefaultsRow` | generate.py:82-94 | an empty row or empty NAME leaves the table as it is; any other row fails exactly when its NAME was seen, otherwise it is added padded |
| `Tables.CharIdFailureNone` | generate.py:112-116 | a profile table loads exactly when no row is empty and no two rows share a CHAR_ID |
| `Tables.ReadCharIds` | generate.py:105-118 | errors for an empty header and a first column other than CHAR_ID; after that, the first empty row or repeated CHAR_ID, or a well-formed table of all rows keyed by CHAR_ID in file order |
| `Tables.ReadCharIdsCsv` | generate.py:99-118 | a file without rows fails; otherwise `read_char_ids`' outcome on the fixed header and the fixed data rows |
| `Tables.InsertCharIds` | generate.py:112-118 | the loop over the data rows ends in the first empty row or repeated CHAR_ID, or in a table of exactly the rows read |
| `Tables.CharIdRow` | generate.py:113-116 | a row without cells fails on its first cell; any other row fails exactly when its CHAR_ID was seen, otherwise it is added |
| `Normalize.CleanCodeSpec` | generate.py:603-617 | the cleaned text ends in exactly one line break, and no line ends in a space or a tab; it never has three line breaks in a row, or an empty line after `{` or before `}`; cleaning again changes nothing |
| `Normalize.CleanCodeFixpoint` | generate.py:603-617 | text already of that shape is left unchanged |
| `Normalize.StagesNoTrailingBlank` | generate.py:608-615 | after the trailing-blank pass no line ends in a blank, and the brace and triple passes keep it so |
| `Normalize.StagesRuns` | generate.py:611-615 | after the three line-break passes no line-break run the regexes match is left |
| `Normalize.CollapseIdentity` | generate.py:611-615 | a pass leaves text unchanged where its pattern does not occur |
| `Normalize.TrimIdentity` | generate.py:608 | the trailing-blank pass leaves text without trailing blanks unchanged |
| `Engine.DeclDictShape` | generate.py:10-26 | every `decl_dict` entry is plain text around one `@NAME@`, and putting a name there gives the C declaration of that name |
| `Engine.CTypePlain` | generate.py:10-26 | no C type or declarator suffix of `decl_dict` contains `@` |
| `Engine.Lookup` | generate.py:496-498 | a lookup succeeds exactly when the key is present, with its cell, and fails with `KeyError` on that key otherwise |
| `Engine.IsTesting` | generate.py:452-457 | a profile is testing exactly when its TESTING cell is set and parses to a non-zero integer; an unparsable cell is a `ValueError` |
| `Engine.IsTestingNumber` | generate.py:456 | a TESTING cell holding the decimal n makes the profile testing exactly when n is not 0 |
| `Engine.GetValue` | generate.py:460-470 | a set profile cell wins; otherwise DEFAULT is read, failing when it is missing |
| `Engine.CheckValueOverride` | generate.py:473-486 | fails exactly when a profile is given and either TYPE is missing, or TYPE starts with VALUE and the profile has a column for the toggle |
| `Engine.SplitDecl` | generate.py:543 | splitting at the first `_` gives base and tag with `decl == base + "_" + tag` |
| `Engine.FormatHDeclaration` | generate.py:431-435 | the H column is read first; without it the result is a `KeyError` on H |
| `Engine.FormatCDefinition` | generate.py:438-442 | the C column is read first; without it the result is a `KeyError` on C |
| `Engine.FormatCAssignment` | generate.py:445-449 | the C_ASSIGN column is read first; without it the result is a `KeyError` on C_ASSIGN |
| `Engine.FillPlain` | generate.py:589-598 | a text without `@` is unchanged by the placeholder substitution |
| `Engine.FillNameValue` | generate.py:590-598 | a template with one `@NAME@` and then one `@VALUE@` gets the name and value in those places, for a name without `@` and a value without `@CONST@` |
| `Engine.FillConstNameValue` | generate.py:590-598 | the same with a leading `@CONST@ `, which is dropped with its space under testing and becomes `const ` otherwise |
| `Engine.ConstDropped` | generate.py:593-596 | under testing `@CONST@ ` is removed together with its space |
| `Engine.ConstKept` | generate.py:597-598 | outside testing `@CONST@` becomes `const` |
| `Engine.ConstStepFramed` | generate.py:593-598 | the `@CONST@` step leaves an inserted value without `@CONST@` alone, between text without `@` |
| `Engine.ConstAtFramed` | generate.py:593-598 | after a leading `@CONST@ `, dropped or made `const `, the rest with such a value is kept as it is |
| `Engine.ConstInValue` | generate.py:590-598 | a value `@CONST@` is itself rewritten: the assignment of that value to NAME reads `NAME = const;` |
| `Engine.FillMacroTemplate` | generate.py:559-573 | for a NAME without `@` and a value without `@CONST@`, a typed macro template becomes the variable text when promoted and a `#define` otherwise |
| `Engine.FillDefine` | generate.py:567-573 | for a NAME without `@` and a value without `@CONST@`, the unpromoted macro template becomes `#define NAME VALUE` in a header and nothing in a source |
| `Engine.FillVarTemplate` | generate.py:581-587 | for a NAME without `@` and a value without `@CONST@`, the VAR template becomes the extern declaration, the definition and the assignment, and equals the promoted macro template |
| `Engine.FillConstTemplate` | generate.py:574-598 | for a NAME without `@` and a value without `@CONST@`, the CONST template becomes the variable forms with `const ` unless promoted |
| `Engine.FillConstDecl` | generate.py:575-576 | for a NAME without `@` and any value, the header form of a CONST toggle is `extern [const ]TYPE NAME;` |
| `Engine.FillConstDef` | generate.py:577-578 | for a NAME without `@` and a value without `@CONST@`, the source form of a CONST toggle is `[const ]TYPE NAME = VALUE;` |
| `Engine.BareMacroForms` | generate.py:519-573 | for a NAME without `@` and a value without `@CONST@`, a bare MACRO is `#define NAME VALUE` in the header and nothing in the source, even in a testing profile |
| `Engine.MacroTypedForms` | generate.py:537-573 | for a NAME without `@` and a value without `@CONST@`, a `MACRO_<tag>` toggle is a variable for an OPTION in a testing profile, and a `#define` otherwise |
| `Engine.ConstForms` | generate.py:574-598 | for a NAME without `@` and a value without `@CONST@`, a `CONST_<tag>` toggle is an extern const declaration and a const definition; the `const` is dropped for an OPTION in a testing profile |
| `Engine.VarForms` | generate.py:581-598 | for a NAME without `@` and a value without `@CONST@`, a `VAR_<tag>` toggle is an extern declaration, a definition with the value and an assignment |
| `Engine.UnknownTagFails` | generate.py:545-551 | a tag missing from `decl_dict` is `NotImplementedError` on the tag |
| `Engine.UnknownDeclFails` | generate.py:552-556 | any other DECL is `NotImplementedError` on the DECL |
| `Engine.CustomEmpty` | generate.py:533-536 | a CUSTOM toggle without custom text produces empty text |
| `Engine.CustomCode` | generate.py:589-600 | a custom text gets only the placeholder substitution; `@CONST@` is dropped exactly for a tested OPTION that is not MACRO or CUSTOM |
| `Engine.CustomVerbatim` | generate.py:589-600 | a custom text without `@` is returned as it is |
| `Engine.OkNeedsReady` | generate.py:496-517 | any success implies TYPE, DECL and NAME are present, TYPE is VALUE or OPTION, the value and TESTING resolve, and the override check passes |
| `Engine.UnsupportedTypeFails` | generate.py:510-517 | a TYPE other than VALUE and OPTION is `NotImplementedError` on the type once the earlier checks pass |
| `Engine.ValueOverrideFails` | generate.py:481-486 | a VALUE toggle with a column in the profile fails the assertion, whatever the code |
| `Assembly.RowsOf` | generate.py:190 | the rows of a table in key order |
| `Assembly.Pieces` | generate.py:190-195 | the loop succeeds exactly when every row's fragment does; then it yields them in order, and otherwise the error of the first failing row |
| `Assembly.PiecesPrefix` | generate.py:190-195 | once a prefix of the rows fails, later rows do not change the outcome |
| `Assembly.AppendPieces` | generate.py:190-195 | the loop appends the fragments of all rows in order, or stops at the first error |
| `Assembly.IdLines` | generate.py:207-212 | line i is `#define <CHAR_ID> i+1 /**< @brief <BRIEF> */`; a profile without BRIEF is a `KeyError` |
| `Assembly.ListCharIds` | generate.py:204-221 | the loop with `num` starting at -1 builds the profile list and `NUM_CHAR_IDS num+1` |
| `Assembly.NoProfiles` | generate.py:207-214 | with no profiles the list is empty and NUM_CHAR_IDS is 0 |
| `Assembly.AppendIncludes` | generate.py:230-234 | the loop appends one `#elif` and `#include` pair per profile, in order |
| `Assembly.ChainLines` | generate.py:230-234 | the chain has two lines per profile: `#elif (CHAR_ID == id)`, then the include of the lowered id |
| `Assembly.IncludeChainLines` | generate.py:230-235 | the lines of the include chain are exactly those pairs |
| `Assembly.CaptureText` | generate.py:357 | the captured text is a prefix of the rest of the line; when shorter, the rest ends in `*/` after white space and the capture does not end in white space |
| `Assembly.CaptureClosed` | generate.py:356-358 | on `... TOP_C: text */` the capture is `text` |
| `Assembly.CaptureOpen` | generate.py:356-358 | on a line that does not end in `*/` the capture is everything after the first `TOP_C: ` |
| `Assembly.CaptureFree` | generate.py:356-358 | a line without `T` captures nothing |
| `Assembly.CapturesAppend` | generate.py:356-358 | captures of consecutive lines add up in order |
| `Assembly.IndentTopC` | generate.py:346-349 | indenting the assignments does not change what is captured |
| `Assembly.PiecesTopC` | generate.py:355-361 | the captures of fragments that each end in a line break are their captures in order |
| `Assembly.ResetTopC` | generate.py:342-350 | the `testing_reset_toggles` frame adds no capture around the assignments |
| `Assembly.SourceBodyTopC` | generate.py:330-361 | the captures of a profile's option text are those of the definitions, then those of the assignments when testing |
| `Assembly.HoistedInOrder` | generate.py:315-361 | the TOP_C text hoisted in a profile source is that of every toggle's definition in table order, then, for a testing profile, that of every assignment |
| `Assembly.DefPieceText` | generate.py:334-336 | a definition fragment is the C definition and one line break |
| `Assembly.AssignPieceText` | generate.py:347-349 | an assignment fragment is the indented assignment and one line break, and captures what the assignment captures |
| `Assembly.CharacterizationHeader` | generate.py:121-246 | `include/toggle.h`, when it can be built, has the shape clean_code guarantees |
| `Assembly.WriteCharacterizationHeader` | generate.py:121-246 | the builder's loops compute `CharacterizationHeader` |
| `Assembly.CharacterizationSource` | generate.py:277-309 | `src/toggle.c` has the shape clean_code guarantees, whatever the tables hold |
| `Assembly.WriteCharacterizationSource` | generate.py:277-309 | the builder's loop computes `CharacterizationSource`, and ignores the toggle table |
| `Assembly.CharIdHeader` | generate.py:372-419 | a profile header, when it can be built, has the shape clean_code guarantees |
| `Assembly.WriteCharIdHeader` | generate.py:372-419 | the builder's lookups in source order and its loop compute `CharIdHeader` |
| `Assembly.CharIdSource` | generate.py:315-366 | a profile source, when it can be built, has the shape clean_code guarantees |
| `Assembly.WriteCharIdSource` | generate.py:315-366 | the builder's loops and its hoist compute `CharIdSource` |
| `Assembly.SourceOption` | generate.py:330-350 | the definition loop and, for a testing profile, the reset function computed by the loops are the option text of the profile source |
| `Assembly.SourceFile` | generate.py:319-366 | the profile source file is named after the lower-cased CHAR_ID and its text has the shape clean_code guarantees |

## Left out

- The file handling is not modelled: opening and reading the CSV files, the parsing `csv.reader` does, `create_directory`, the file writes and `main`. `Tables.ReadCsvFile` takes the rows `csv.reader` yields, and the builders return the path and text of each file.
- The output paths are the defaults of the `code_output` parameters; no other path is modelled.
- `Assembly.Capture`: a `\s*` in the TOP_C regex can also match line breaks, so a `*/` on the line after a TOP_C line is consumed with it. The model matches each line on its own; it does not model that case, or the later match positions it shifts.
- `Text.Lower`: Python lowers and raises all of Unicode; the model changes only `A`-`Z` and `a`-`z`, so a CHAR_ID with other letters gets a different file name and guard.
- `Text.ParseInt`: models `int()` in base 10 with ASCII digits, surrounding white space, one sign and single underscores between digits; non-ASCII digits are not modelled.
- `Text.Upper`: as `Text.Lower`, ASCII letters only.
- `Engine.BareMacroForms`: stated for a NAME without `@` and a value in which `@CONST@` does not occur. For other values the source rewrites that `@CONST@` in the output too (`Engine.ConstInValue`), and the result is not stated. A NAME holding `@` is not covered either, as a C identifier cannot hold one.
- `Engine.MacroTypedForms`: the same restriction on NAME and the value as `Engine.BareMacroForms`. For a tested OPTION, a value starting with `@CONST@` would also lose the space before it, through the ` @CONST@` replacement.
- `Engine.ConstForms`: the same restriction on NAME and the value as `Engine.MacroTypedForms`, for the same reasons.
- `Engine.VarForms`: the same restriction on NAME and the value as `Engine.MacroTypedForms`, for the same reasons.
