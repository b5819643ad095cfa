/** The decision engine: for one toggle row of the defaults table and the
    row of one profile (or none), format_ch_def_decl picks the C text of the
    toggle's declaration, definition or assignment and fills in its
    placeholders. */
module Engine {
  import opened Outcomes
  import opened Text
  import opened Tables

  /** The entries of decl_dict (generate.py:10-26), each written there as
      "<C type> @NAME@<declarator suffix>": the C type and the suffix of every
      tag, None for a tag the dict does not hold. */
  function CTypeParts(tag: string): Option<(string, string)> {
    match tag
    case "BOOL" => Some(("bool", ""))
    case "CHAR" => Some(("char", ""))
    case "INT8" => Some(("int8_t", ""))
    case "INT16" => Some(("int16_t", ""))
    case "INT32" => Some(("int32_t", ""))
    case "INT64" => Some(("int64_t", ""))
    case "INTPTR" => Some(("intptr_t", ""))
    case "UINT8" => Some(("uint8_t", ""))
    case "UINT16" => Some(("uint16_t", ""))
    case "UINT32" => Some(("uint32_t", ""))
    case "UINT64" => Some(("uint64_t", ""))
    case "UINTPTR" => Some(("uintptr_t", ""))
    case "FLOAT" => Some(("float", ""))
    case "DOUBLE" => Some(("double", ""))
    case "CHAR_ARRAY" => Some(("char", "[]"))
    case _ => None
  }

  /** decl_dict[tag]: the C declaration template of a type tag. */
  function DeclDict(tag: string): Option<string> {
    match CTypeParts(tag)
    case Some((ctype, suffix)) => Some(ctype + " @NAME@" + suffix)
    case None => None
  }

  /** The C declaration of `name` with the type of `tag`. */
  function CDecl(tag: string, name: string): string {
    match CTypeParts(tag)
    case Some((ctype, suffix)) => ctype + " " + name + suffix
    case None => ""
  }

  /** Every entry of decl_dict is plain text around the one name
      placeholder, and the declaration of a name puts the name there. */
  lemma DeclDictShape(tag: string, name: string) returns (head: string, x: string)
    requires DeclDict(tag).Some?
    ensures DeclDict(tag).value == head + "@NAME@" + x && CDecl(tag, name) == head + name + x
    ensures '@' !in head && '@' !in x
  {
    var (ctype, suffix) := CTypeParts(tag).value;
    CTypePlain(tag);
    head := ctype + " ";
    x := suffix;
    assert ctype + " @NAME@" + suffix == head + "@NAME@" + x;
  }

  /** No C type or suffix of decl_dict holds an '@'. */
  lemma CTypePlain(tag: string)
    requires CTypeParts(tag).Some?
    ensures '@' !in CTypeParts(tag).value.0 && '@' !in CTypeParts(tag).value.1
  {
  }

  datatype Format = Decl | Def | Assign

  /** The declaration kind before the first '_' of DECL. */
  datatype Base = MacroBase | ConstBase | VarBase

  /** `row[key]`, failing with KeyError. */
  function Lookup(row: Row, key: string): (r: Result<string>)
    ensures r.Ok? <==> key in row
    ensures r.Ok? ==> r.value == row[key]
    ensures r.Err? ==> r.error == MissingKey(key)
  {
    if key in row then Ok(row[key]) else Err(MissingKey(key))
  }

  /** The profile does not provide `key`: there is no profile, it has no
      such column, or the cell is empty. */
  predicate Unset(charId: Option<Row>, key: string) {
    charId.None? || key !in charId.value || charId.value[key] == ""
  }

  // ---------------------------------------------------------------------
  // is_testing, get_value and the VALUE-override check (generate.py:452-486)

  /** is_testing: `bool(int(char_id["TESTING"]))` unless TESTING is unset. */
  function IsTesting(charId: Option<Row>): (r: Result<bool>)
    ensures r == Ok(true) <==>
      !Unset(charId, "TESTING") && ParseInt(charId.value["TESTING"]).Some? && ParseInt(charId.value["TESTING"]).value != 0
    ensures r.Err? <==> !Unset(charId, "TESTING") && ParseInt(charId.value["TESTING"]).None?
    ensures r.Err? ==> r.error == BadTesting(charId.value["TESTING"])
  {
    if Unset(charId, "TESTING") then Ok(false)
    else
      match ParseInt(charId.value["TESTING"])
      case None => Err(BadTesting(charId.value["TESTING"]))
      case Some(n) => Ok(n != 0)
  }

  /** A TESTING cell holding a decimal number tests exactly when it is not 0. */
  lemma IsTestingNumber(profile: Row, n: nat)
    requires "TESTING" in profile && profile["TESTING"] == NatToString(n)
    ensures IsTesting(Some(profile)) == Ok(n != 0)
  {
    ParseNatToString(n);
  }

  /** get_value: the profile's cell for `name` when it provides one,
      DEFAULT otherwise. */
  function GetValue(name: string, defaults: Row, charId: Option<Row>): (r: Result<string>)
    ensures !Unset(charId, name) ==> r == Ok(charId.value[name])
    ensures Unset(charId, name) ==> r == Lookup(defaults, "DEFAULT")
  {
    if Unset(charId, name) then Lookup(defaults, "DEFAULT") else Ok(charId.value[name])
  }

  /** error_if_value_option_is_set_on_characterization_file: a toggle whose
      TYPE starts with VALUE may not be a column of a profile, even an
      empty one. */
  function CheckValueOverride(name: string, defaults: Row, charId: Option<Row>): (r: Result<()>)
    ensures r.Err? <==> charId.Some? && ("TYPE" !in defaults || (StartsWith(defaults["TYPE"], "VALUE") && name in charId.value))
    ensures r.Err? && "TYPE" in defaults ==> r.error == ValueOverride(name)
  {
    if charId.None? then Ok(())
    else
      var typ :- Lookup(defaults, "TYPE");
      if StartsWith(typ, "VALUE") && name in charId.value then Err(ValueOverride(name)) else Ok(())
  }

  // ---------------------------------------------------------------------
  // format_ch_def_decl (generate.py:489-600)

  /** `decl.split("_", 1)` for a DECL starting with MACRO_, CONST_ or VAR_. */
  function SplitDecl(decl: string): (r: (Base, string))
    requires StartsWith(decl, "MACRO_") || StartsWith(decl, "CONST_") || StartsWith(decl, "VAR_")
    ensures r.0 == MacroBase ==> decl == "MACRO_" + r.1
    ensures r.0 == ConstBase ==> decl == "CONST_" + r.1
    ensures r.0 == VarBase ==> decl == "VAR_" + r.1
  {
    if StartsWith(decl, "MACRO_") then
      assert decl == decl[..6] + decl[6..];
      (MacroBase, decl[6..])
    else if StartsWith(decl, "CONST_") then
      assert decl == decl[..6] + decl[6..];
      (ConstBase, decl[6..])
    else
      assert decl == decl[..4] + decl[4..];
      (VarBase, decl[4..])
  }

  /** The code synthesized for a base; `promoted` is "testing and testing
      changes", which turns a macro into a variable. */
  function Template(base: Base, cdecl: string, promoted: bool, format: Format): string {
    match base
    case MacroBase =>
      if promoted then
        (match format
         case Decl => "extern " + cdecl + ";"
         case Def => cdecl + " = @VALUE@;"
         case Assign => "@NAME@ = @VALUE@;")
      else
        (match format
         case Decl => "#define @NAME@ @VALUE@"
         case Def => ""
         case Assign => "")
    case ConstBase =>
      (match format
       case Decl => "extern @CONST@ " + cdecl + ";"
       case Def => "@CONST@ " + cdecl + " = @VALUE@;"
       case Assign => "@NAME@ = @VALUE@;")
    case VarBase =>
      match format
      case Decl => "extern " + cdecl + ";"
      case Def => cdecl + " = @VALUE@;"
      case Assign => "@NAME@ = @VALUE@;"
  }

  /** DECL part 2: the code for an empty custom text; CUSTOM is handled
      before this is reached. */
  function Synthesize(decl: string, promoted: bool, format: Format): Result<string> {
    if decl == "MACRO" then Ok(Template(MacroBase, "MACRO", promoted, format))
    else if StartsWith(decl, "MACRO_") || StartsWith(decl, "CONST_") || StartsWith(decl, "VAR_") then
      var (base, tag) := SplitDecl(decl);
      if DeclDict(tag).Some? then Ok(Template(base, DeclDict(tag).value, promoted, format))
      else Err(UnsupportedDecl(tag))
    else Err(UnsupportedDecl(decl))
  }

  /** The placeholder replacement, in the order of the source: @NAME@, then
      @VALUE@, then @CONST@ (removed with one neighbouring space when
      `drop`, replaced by `const` otherwise). */
  function Fill(code: string, name: string, value: string, drop: bool): string {
    ConstStep(Replace(Replace(code, "@NAME@", name), "@VALUE@", value), drop)
  }

  function ConstStep(c: string, drop: bool): string {
    if drop then Replace(Replace(c, "@CONST@ ", ""), " @CONST@", "")
    else Replace(c, "@CONST@", "const")
  }

  /** testing_changes: only an OPTION whose DECL is neither MACRO nor
      CUSTOM changes when testing. */
  predicate TestingChanges(typ: string, decl: string) {
    typ == "OPTION" && decl != "MACRO" && decl != "CUSTOM"
  }

  /** format_ch_def_decl, with its lookups and checks in the source's order. */
  function FormatChDefDecl(code: string, defaults: Row, charId: Option<Row>, format: Format): Result<string> {
    var typ :- Lookup(defaults, "TYPE");
    var decl :- Lookup(defaults, "DECL");
    var name :- Lookup(defaults, "NAME");
    var value :- GetValue(name, defaults, charId);
    var testing :- IsTesting(charId);
    var _ :- CheckValueOverride(name, defaults, charId);
    if typ != "VALUE" && typ != "OPTION" then Err(UnsupportedType(typ))
    else
      var promoted := testing && TestingChanges(typ, decl);
      if code == "" && decl == "CUSTOM" then Ok(code)
      else
        var template :- if code == "" then Synthesize(decl, promoted, format) else Ok(code);
        Ok(Fill(template, name, value, promoted))
  }

  // ---------------------------------------------------------------------
  // The wrappers (generate.py:431-449)

  /** format_h_declaration: the H column is read before anything else. */
  function FormatHDeclaration(defaults: Row, charId: Option<Row>): (r: Result<string>)
    ensures "H" !in defaults ==> r == Err(MissingKey("H"))
  {
    var code :- Lookup(defaults, "H");
    FormatChDefDecl(code, defaults, charId, Decl)
  }

  /** format_c_definition: the C column. */
  function FormatCDefinition(defaults: Row, charId: Option<Row>): (r: Result<string>)
    ensures "C" !in defaults ==> r == Err(MissingKey("C"))
  {
    var code :- Lookup(defaults, "C");
    FormatChDefDecl(code, defaults, charId, Def)
  }

  /** format_c_assignment: the C_ASSIGN column. */
  function FormatCAssignment(defaults: Row, charId: Option<Row>): (r: Result<string>)
    ensures "C_ASSIGN" !in defaults ==> r == Err(MissingKey("C_ASSIGN"))
  {
    var code :- Lookup(defaults, "C_ASSIGN");
    FormatChDefDecl(code, defaults, charId, Assign)
  }

  // ---------------------------------------------------------------------
  // Placeholder filling on the synthesized shapes

  lemma ConstPlain(x: string, drop: bool)
    requires '@' !in x
    ensures ConstStep(x, drop) == x
  {
    ReplaceAbsent(x, "@CONST@ ", "");
    ReplaceMissing(x, " @CONST@", "", 1);
    ReplaceAbsent(x, "@CONST@", "const");
  }

  lemma FillPlain(x: string, name: string, value: string, drop: bool)
    requires '@' !in x
    ensures Fill(x, name, value, drop) == x
  {
    ReplaceAbsent(x, "@NAME@", name);
    ReplaceAbsent(x, "@VALUE@", value);
    ConstPlain(x, drop);
  }

  /** @NAME@ is not found inside @VALUE, nor inside "@CONST@ ". */
  lemma ValueHoldsNoName()
    ensures NoStartIn("@VALUE", "@NAME@")
  {
  }

  lemma ConstHoldsNoName()
    ensures NoStartIn("@CONST@ ", "@NAME@")
  {
  }

  /** @VALUE@ is not found inside "@CONST@ ". */
  lemma ConstHoldsNoValue()
    ensures NoStartIn("@CONST@ ", "@VALUE@")
  {
  }

  /** The one slot of plain text y pat z is filled. */
  lemma SlotAt(y: string, z: string, pat: string, rep: string)
    requires |pat| > 0 && pat[0] == '@' && '@' !in y && '@' !in z
    ensures Replace(y + pat + z, pat, rep) == y + rep + z
  {
    NoStartFree(y, pat);
    ReplaceFirst(y, z, pat, rep);
    ReplaceAbsent(z, pat, rep);
  }

  /** "@VALUE@" followed by plain text holds no @NAME@. */
  lemma SkipValueSlot(z: string, name: string)
    requires '@' !in z
    ensures Replace("@VALUE@" + z, "@NAME@", name) == "@VALUE@" + z
  {
    ValueHoldsNoName();
    var v := "@VALUE";
    assert "@VALUE@" == v + ['@'];
    assert "@VALUE@" + z == v + (['@'] + z);
    ReplaceSkip(v, ['@'] + z, "@NAME@", name);
    LeadThenFree('@', z, "@NAME@", name);
  }

  /** The first of two slots n and v, where v's slot text holds no n. */
  lemma SlotBeforeSlot(y: string, z1: string, z2: string, n: string, v: string, name: string)
    requires |n| > 0 && n[0] !in y && n[0] !in z1
    requires Replace(v + z2, n, name) == v + z2
    ensures Replace(y + n + z1 + v + z2, n, name) == y + name + z1 + v + z2
  {
    Regroup(y + n, z1, v, z2);
    Regroup(y + name, z1, v, z2);
    NoStartFree(y, n);
    ReplaceFirst(y, z1 + (v + z2), n, name);
    NoStartFree(z1, n);
    ReplaceSkip(z1, v + z2, n, name);
  }

  /** The @NAME@ step on y @NAME@ z1 @VALUE@ z2. */
  lemma NameBeforeValue(y: string, z1: string, z2: string, name: string)
    requires '@' !in y && '@' !in z1 && '@' !in z2
    ensures Replace(y + "@NAME@" + z1 + "@VALUE@" + z2, "@NAME@", name) == y + name + z1 + "@VALUE@" + z2
  {
    SkipValueSlot(z2, name);
    SlotBeforeSlot(y, z1, z2, "@NAME@", "@VALUE@", name);
  }

  /** A @NAME@ or @VALUE@ step passes over plain w and "@CONST@ ". */
  lemma SkipConstSlot(w: string, t: string, pat: string, rep: string)
    requires pat == "@NAME@" || pat == "@VALUE@"
    requires '@' !in w
    ensures Replace(w + "@CONST@ " + t, pat, rep) == w + "@CONST@ " + Replace(t, pat, rep)
  {
    if pat == "@NAME@" {
      ConstHoldsNoName();
    } else {
      ConstHoldsNoValue();
    }
    assert pat[0] == '@';
    NoStartFree(w, pat);
    ReplaceSkipTwo(w, "@CONST@ ", t, pat, rep);
  }

  /** The text that @CONST@ and its space turn into. */
  function ConstWord(drop: bool): string {
    if drop then "" else "const "
  }

  lemma ConstDropped(w: string, rest: string)
    requires '@' !in w && '@' !in rest
    ensures ConstStep(w + "@CONST@ " + rest, true) == w + rest
  {
    SlotAt(w, rest, "@CONST@ ", "");
    assert w + "" + rest == w + rest;
    ReplaceMissing(w + rest, " @CONST@", "", 1);
  }

  lemma ConstKept(w: string, rest: string)
    requires '@' !in w && '@' !in rest
    ensures ConstStep(w + "@CONST@ " + rest, false) == w + "const " + rest
  {
    assert w + "@CONST@ " + rest == w + "@CONST@" + (" " + rest);
    SlotAt(w, " " + rest, "@CONST@", "const");
    assert w + "const" + (" " + rest) == w + "const " + rest;
  }

  /** The @CONST@ step on w "@CONST@ " rest, with no other placeholder. */
  lemma ConstAt(w: string, rest: string, drop: bool)
    requires '@' !in w && '@' !in rest
    ensures ConstStep(w + "@CONST@ " + rest, drop) == w + ConstWord(drop) + rest
  {
    if drop {
      ConstDropped(w, rest);
      assert w + "" + rest == w + rest;
    } else {
      ConstKept(w, rest);
    }
  }

  /** A value in which "@CONST@" does not occur: the last replacement
      step, which runs over the inserted value too, finds nothing in it. */
  predicate ConstFree(value: string) {
    !Contains(value, "@CONST@")
  }

  /** One replacement of the @CONST@ step passes over x value z when
      x and z hold no '@'. */
  lemma ConstPatternAbsent(x: string, v: string, z: string, pat: string, rep: string)
    requires pat == "@CONST@ " || pat == " @CONST@" || pat == "@CONST@"
    requires '@' !in x && '@' !in z && ConstFree(v)
    ensures Replace(x + v + z, pat, rep) == x + v + z
  {
    var core := "@CONST@";
    NotContainedBefore(v, z, core);
    NotContainedAfter(x, v + z, core);
    Assoc(x, v, z);
    if pat == "@CONST@ " {
      assert pat == core + " ";
      NotContainedLonger(x + v + z, core, " ");
    } else if pat == " @CONST@" {
      assert pat == [' '] + core;
      NotContainedLed(x + v + z, ' ', core);
    }
    ReplaceUnmatched(x + v + z, pat, rep);
  }

  /** The @CONST@ step leaves x value z alone. */
  lemma ConstStepFramed(x: string, v: string, z: string, drop: bool)
    requires '@' !in x && '@' !in z && ConstFree(v)
    ensures ConstStep(x + v + z, drop) == x + v + z
  {
    if drop {
      ConstPatternAbsent(x, v, z, "@CONST@ ", "");
      ConstPatternAbsent(x, v, z, " @CONST@", "");
    } else {
      ConstPatternAbsent(x, v, z, "@CONST@", "const");
    }
  }

  /** The one occurrence after w, when the rest is left alone. */
  lemma SlotThenUnmatched(w: string, rest: string, pat: string, rep: string)
    requires |pat| > 0 && pat[0] !in w && Replace(rest, pat, rep) == rest
    ensures Replace(w + pat + rest, pat, rep) == w + rep + rest
  {
    NoStartFree(w, pat);
    ReplaceFirst(w, rest, pat, rep);
  }

  /** The @CONST@ step on w "@CONST@ " x value z, under testing. */
  lemma ConstDroppedFramed(w: string, x: string, v: string, z: string)
    requires '@' !in w && '@' !in x && '@' !in z && ConstFree(v)
    ensures ConstStep(w + "@CONST@ " + (x + v + z), true) == w + (x + v + z)
  {
    var rest := x + v + z;
    ConstPatternAbsent(x, v, z, "@CONST@ ", "");
    DropSlot(w, rest, "@CONST@ ");
    ConstPatternAbsent(w + x, v, z, " @CONST@", "");
    Regroup(w, x, v, z);
  }

  /** Deleting the one occurrence after w, when the rest is left alone. */
  lemma DropSlot(w: string, rest: string, pat: string)
    requires |pat| > 0 && pat[0] !in w && Replace(rest, pat, "") == rest
    ensures Replace(w + pat + rest, pat, "") == w + rest
  {
    SlotThenUnmatched(w, rest, pat, "");
    EmptyBetween(w, "", rest);
  }

  lemma EmptyBetween(a: string, e: string, b: string)
    requires |e| == 0
    ensures a + e + b == a + b
  {
    assert e == [];
  }

  /** The @CONST@ step on w "@CONST@ " x value z, otherwise. */
  lemma ConstKeptFramed(w: string, x: string, v: string, z: string)
    requires '@' !in w && '@' !in x && '@' !in z && ConstFree(v)
    ensures ConstStep(w + "@CONST@ " + (x + v + z), false) == w + "const " + (x + v + z)
  {
    var rest := x + v + z;
    var sp := " " + x;
    assert sp + v + z == " " + rest;
    ConstPatternAbsent(sp, v, z, "@CONST@", "const");
    SlotThenUnmatched(w, " " + rest, "@CONST@", "const");
    assert w + "@CONST@ " + rest == w + "@CONST@" + (" " + rest);
    assert w + "const" + (" " + rest) == w + "const " + rest;
  }

  lemma ConstAtFramed(w: string, x: string, v: string, z: string, drop: bool)
    requires '@' !in w && '@' !in x && '@' !in z && ConstFree(v)
    ensures ConstStep(w + "@CONST@ " + (x + v + z), drop) == w + ConstWord(drop) + (x + v + z)
  {
    if drop {
      ConstDroppedFramed(w, x, v, z);
      assert w + "" + (x + v + z) == w + (x + v + z);
    } else {
      ConstKeptFramed(w, x, v, z);
    }
  }

  /** y @NAME@ z */
  lemma FillName(y: string, z: string, name: string, value: string, drop: bool)
    requires '@' !in y && '@' !in z && '@' !in name
    ensures Fill(y + "@NAME@" + z, name, value, drop) == y + name + z
  {
    SlotAt(y, z, "@NAME@", name);
    FillTail(y + name + z, value, drop);
  }

  /** The steps after @NAME@ leave plain text alone. */
  lemma FillTail(x: string, value: string, drop: bool)
    requires '@' !in x
    ensures ConstStep(Replace(x, "@VALUE@", value), drop) == x
  {
    ReplaceAbsent(x, "@VALUE@", value);
    ConstPlain(x, drop);
  }

  /** y @NAME@ z1 @VALUE@ z2 */
  lemma FillNameValue(y: string, z1: string, z2: string, name: string, value: string, drop: bool)
    requires '@' !in y && '@' !in z1 && '@' !in z2 && '@' !in name && ConstFree(value)
    ensures Fill(y + "@NAME@" + z1 + "@VALUE@" + z2, name, value, drop) == y + name + z1 + value + z2
  {
    NameBeforeValue(y, z1, z2, name);
    SlotAt(y + name + z1, z2, "@VALUE@", value);
    ConstStepFramed(y + name + z1, value, z2, drop);
  }

  /** The @NAME@ and @VALUE@ steps on w @CONST@ y @NAME@ z. */
  lemma ConstNameSlots(w: string, y: string, z: string, name: string, value: string)
    requires '@' !in w && '@' !in y && '@' !in z && '@' !in name
    ensures Replace(Replace(w + "@CONST@ " + y + "@NAME@" + z, "@NAME@", name), "@VALUE@", value)
      == w + "@CONST@ " + (y + name + z)
  {
    var t := y + "@NAME@" + z;
    assert w + "@CONST@ " + y + "@NAME@" + z == w + "@CONST@ " + t;
    SkipConstSlot(w, t, "@NAME@", name);
    SlotAt(y, z, "@NAME@", name);
    var rest := y + name + z;
    SkipConstSlot(w, rest, "@VALUE@", value);
    ReplaceAbsent(rest, "@VALUE@", value);
  }

  /** w @CONST@ y @NAME@ z */
  lemma FillConstName(w: string, y: string, z: string, name: string, value: string, drop: bool)
    requires '@' !in w && '@' !in y && '@' !in z && '@' !in name
    ensures Fill(w + "@CONST@ " + y + "@NAME@" + z, name, value, drop) == w + ConstWord(drop) + y + name + z
  {
    ConstNameSlots(w, y, z, name, value);
    var rest := y + name + z;
    ConstAt(w, rest, drop);
    Append3(w + ConstWord(drop), y, name, z);
  }

  /** w @CONST@ y @NAME@ z1 @VALUE@ z2 */
  lemma FillConstNameValue(w: string, y: string, z1: string, z2: string, name: string, value: string, drop: bool)
    requires '@' !in w && '@' !in y && '@' !in z1 && '@' !in z2 && '@' !in name && ConstFree(value)
    ensures Fill(w + "@CONST@ " + y + "@NAME@" + z1 + "@VALUE@" + z2, name, value, drop)
      == w + ConstWord(drop) + y + name + z1 + value + z2
  {
    var t := y + "@NAME@" + z1 + "@VALUE@" + z2;
    assert w + "@CONST@ " + y + "@NAME@" + z1 + "@VALUE@" + z2 == w + "@CONST@ " + t;
    SkipConstSlot(w, t, "@NAME@", name);
    NameBeforeValue(y, z1, z2, name);
    var u := y + name + z1 + "@VALUE@" + z2;
    SkipConstSlot(w, u, "@VALUE@", value);
    SlotAt(y + name + z1, z2, "@VALUE@", value);
    var rest := y + name + z1 + value + z2;
    assert rest == (y + name + z1) + value + z2;
    ConstAtFramed(w, y + name + z1, value, z2, drop);
    Append5(w + ConstWord(drop), y, name, z1, value, z2);
  }

  lemma Append5(p: string, a: string, b: string, c: string, d: string, e: string)
    ensures p + (a + b + c + d + e) == p + a + b + c + d + e
  {
  }

  lemma Append3(p: string, a: string, b: string, c: string)
    ensures p + (a + b + c) == p + a + b + c
  {
  }

  // ---------------------------------------------------------------------
  // What format_ch_def_decl produces

  /** The bare macro forms: a #define in the header, nothing in the source. */
  function DefineText(format: Format, name: string, value: string): string {
    match format
    case Decl => "#define " + name + " " + value
    case Def => ""
    case Assign => ""
  }

  /** The variable forms: an extern declaration, a definition with the
      value and an assignment of the value. */
  function VariableText(format: Format, cdecl: string, name: string, value: string): string {
    match format
    case Decl => "extern " + cdecl + ";"
    case Def => cdecl + " = " + value + ";"
    case Assign => name + " = " + value + ";"
  }

  /** The constant forms: as the variable forms, each declaration led by
      "const " unless `drop`. */
  function ConstText(format: Format, drop: bool, cdecl: string, name: string, value: string): string {
    match format
    case Decl => "extern " + ConstWord(drop) + cdecl + ";"
    case Def => ConstWord(drop) + cdecl + " = " + value + ";"
    case Assign => name + " = " + value + ";"
  }

  /** Everything format_ch_def_decl checks before it looks at DECL passes. */
  predicate Ready(defaults: Row, charId: Option<Row>) {
    && "TYPE" in defaults && "DECL" in defaults && "NAME" in defaults
    && (defaults["TYPE"] == "VALUE" || defaults["TYPE"] == "OPTION")
    && GetValue(defaults["NAME"], defaults, charId).Ok?
    && IsTesting(charId).Ok?
    && CheckValueOverride(defaults["NAME"], defaults, charId).Ok?
  }

  /** The resolved value of a ready toggle. */
  function ValueOf(defaults: Row, charId: Option<Row>): string
    requires Ready(defaults, charId)
  {
    GetValue(defaults["NAME"], defaults, charId).value
  }

  /** NAME holds no '@' (it is a C identifier), and "@CONST@" does not
      occur in the value, so the replacement steps after each slot is
      filled leave the inserted text alone. */
  predicate Plain(defaults: Row, charId: Option<Row>)
    requires Ready(defaults, charId)
  {
    '@' !in defaults["NAME"] && ConstFree(ValueOf(defaults, charId))
  }

  /** A value holding "@CONST@" is rewritten by the last step as well:
      the assignment of the value "@CONST@" reads "NAME = const;". */
  lemma ConstInValue(name: string)
    requires '@' !in name
    ensures Fill("" + "@NAME@" + " = " + "@VALUE@" + ";", name, "@CONST@", false) == name + " = " + "const" + ";"
  {
    NameBeforeValue("", " = ", ";", name);
    var y := "" + name + " = ";
    SlotAt(y, ";", "@VALUE@", "@CONST@");
    SlotAt(y, ";", "@CONST@", "const");
  }

  /** A testing profile and an OPTION toggle. */
  predicate TestedOption(defaults: Row, charId: Option<Row>)
    requires Ready(defaults, charId)
  {
    IsTesting(charId).value && defaults["TYPE"] == "OPTION"
  }

  lemma SplitDeclOf(prefix: string, tag: string)
    requires prefix == "MACRO_" || prefix == "CONST_" || prefix == "VAR_"
    ensures var decl := prefix + tag;
      && (StartsWith(decl, "MACRO_") || StartsWith(decl, "CONST_") || StartsWith(decl, "VAR_"))
      && SplitDecl(decl) == (if prefix == "MACRO_" then MacroBase else if prefix == "CONST_" then ConstBase else VarBase, tag)
      && decl != "MACRO" && decl != "CUSTOM"
  {
    var decl := prefix + tag;
    assert decl[..|prefix|] == prefix;
    assert decl[|prefix|..] == tag;
    assert decl[0] == prefix[0] && decl[1] == prefix[1];
  }

  lemma FillMacroTemplate(tag: string, promoted: bool, format: Format, name: string, value: string)
    requires DeclDict(tag).Some? && '@' !in name && ConstFree(value)
    ensures Fill(Template(MacroBase, DeclDict(tag).value, promoted, format), name, value, promoted) ==
      if promoted then VariableText(format, CDecl(tag, name), name, value) else DefineText(format, name, value)
  {
    if promoted {
      FillVarTemplate(tag, promoted, format, name, value);
    } else {
      FillDefine(DeclDict(tag).value, format, name, value);
    }
  }

  /** An unpromoted macro, whatever its C declaration. */
  lemma FillDefine(cdecl: string, format: Format, name: string, value: string)
    requires '@' !in name && ConstFree(value)
    ensures Fill(Template(MacroBase, cdecl, false, format), name, value, false) == DefineText(format, name, value)
  {
    match format
    case Decl =>
      assert Template(MacroBase, cdecl, false, Decl) == "#define " + "@NAME@" + " " + "@VALUE@" + "";
      FillNameValue("#define ", " ", "", name, value, false);
    case Def => FillPlain("", name, value, false);
    case Assign => FillPlain("", name, value, false);
  }

  lemma FillVarTemplate(tag: string, promoted: bool, format: Format, name: string, value: string)
    requires DeclDict(tag).Some? && '@' !in name && ConstFree(value)
    ensures Fill(Template(VarBase, DeclDict(tag).value, promoted, format), name, value, promoted) ==
      VariableText(format, CDecl(tag, name), name, value)
    ensures promoted ==> Template(MacroBase, DeclDict(tag).value, promoted, format) == Template(VarBase, DeclDict(tag).value, promoted, format)
  {
    var head, x := DeclDictShape(tag, name);
    FillVarShape(DeclDict(tag).value, head, x, promoted, format, name, value);
  }

  /** The variable templates of a declaration head @NAME@ x. */
  lemma FillVarShape(cdecl: string, head: string, x: string, promoted: bool, format: Format, name: string, value: string)
    requires cdecl == head + "@NAME@" + x && '@' !in head && '@' !in x && '@' !in name && ConstFree(value)
    ensures Fill(Template(VarBase, cdecl, promoted, format), name, value, promoted) ==
      VariableText(format, head + name + x, name, value)
    ensures promoted ==> Template(MacroBase, cdecl, promoted, format) == Template(VarBase, cdecl, promoted, format)
  {
    match format
    case Decl => FillVarDecl(cdecl, head, x, promoted, name, value);
    case Def => FillVarDef(cdecl, head, x, promoted, name, value);
    case Assign => FillAssign(cdecl, promoted, name, value);
  }

  lemma FillVarDecl(cdecl: string, head: string, x: string, promoted: bool, name: string, value: string)
    requires cdecl == head + "@NAME@" + x && '@' !in head && '@' !in x && '@' !in name
    ensures Fill(Template(VarBase, cdecl, promoted, Decl), name, value, promoted) == "extern " + (head + name + x) + ";"
  {
    assert Template(VarBase, cdecl, promoted, Decl) == ("extern " + head) + "@NAME@" + (x + ";");
    FillName("extern " + head, x + ";", name, value, promoted);
    assert ("extern " + head) + name + (x + ";") == "extern " + (head + name + x) + ";";
  }

  lemma FillVarDef(cdecl: string, head: string, x: string, promoted: bool, name: string, value: string)
    requires cdecl == head + "@NAME@" + x && '@' !in head && '@' !in x && '@' !in name && ConstFree(value)
    ensures Fill(Template(VarBase, cdecl, promoted, Def), name, value, promoted) == (head + name + x) + " = " + value + ";"
  {
    assert Template(VarBase, cdecl, promoted, Def) == head + "@NAME@" + (x + " = ") + "@VALUE@" + ";";
    FillNameValue(head, x + " = ", ";", name, value, promoted);
    assert head + name + (x + " = ") + value + ";" == (head + name + x) + " = " + value + ";";
  }

  /** The assignment template is the same for every base. */
  lemma FillAssign(cdecl: string, promoted: bool, name: string, value: string)
    requires '@' !in name && ConstFree(value)
    ensures Fill(Template(VarBase, cdecl, promoted, Assign), name, value, promoted) == name + " = " + value + ";"
    ensures Template(ConstBase, cdecl, promoted, Assign) == Template(VarBase, cdecl, promoted, Assign)
  {
    assert Template(VarBase, cdecl, promoted, Assign) == "" + "@NAME@" + " = " + "@VALUE@" + ";";
    FillNameValue("", " = ", ";", name, value, promoted);
    assert "" + name + " = " + value + ";" == name + " = " + value + ";";
  }

  lemma FillConstTemplate(tag: string, promoted: bool, format: Format, name: string, value: string)
    requires DeclDict(tag).Some? && '@' !in name && ConstFree(value)
    ensures Fill(Template(ConstBase, DeclDict(tag).value, promoted, format), name, value, promoted) ==
      ConstText(format, promoted, CDecl(tag, name), name, value)
  {
    var head, x := DeclDictShape(tag, name);
    FillConstShape(DeclDict(tag).value, head, x, promoted, format, name, value);
  }

  /** The constant templates of a declaration head @NAME@ x. */
  lemma FillConstShape(cdecl: string, head: string, x: string, promoted: bool, format: Format, name: string, value: string)
    requires cdecl == head + "@NAME@" + x && '@' !in head && '@' !in x && '@' !in name && ConstFree(value)
    ensures Fill(Template(ConstBase, cdecl, promoted, format), name, value, promoted) ==
      ConstText(format, promoted, head + name + x, name, value)
  {
    match format
    case Decl => FillConstDecl(cdecl, head, x, promoted, name, value);
    case Def => FillConstDef(cdecl, head, x, promoted, name, value);
    case Assign => FillAssign(cdecl, promoted, name, value);
  }

  lemma FillConstDecl(cdecl: string, head: string, x: string, promoted: bool, name: string, value: string)
    requires cdecl == head + "@NAME@" + x && '@' !in head && '@' !in x && '@' !in name
    ensures Fill(Template(ConstBase, cdecl, promoted, Decl), name, value, promoted) ==
      "extern " + ConstWord(promoted) + (head + name + x) + ";"
  {
    assert Template(ConstBase, cdecl, promoted, Decl) == "extern " + "@CONST@ " + head + "@NAME@" + (x + ";");
    FillConstName("extern ", head, x + ";", name, value, promoted);
    assert "extern " + ConstWord(promoted) + head + name + (x + ";") == "extern " + ConstWord(promoted) + (head + name + x) + ";";
  }

  lemma FillConstDef(cdecl: string, head: string, x: string, promoted: bool, name: string, value: string)
    requires cdecl == head + "@NAME@" + x && '@' !in head && '@' !in x && '@' !in name && ConstFree(value)
    ensures Fill(Template(ConstBase, cdecl, promoted, Def), name, value, promoted) ==
      ConstWord(promoted) + (head + name + x) + " = " + value + ";"
  {
    ConstDefShape(head, x, ConstWord(promoted), name, value);
    FillConstNameValue("", head, x + " = ", ";", name, value, promoted);
  }

  /** Regrouping of the const definition template and of its filled text. */
  lemma ConstDefShape(head: string, x: string, w: string, name: string, value: string)
    ensures "@CONST@ " + (head + "@NAME@" + x) + " = @VALUE@;" == "" + "@CONST@ " + head + "@NAME@" + (x + " = ") + "@VALUE@" + ";"
    ensures "" + w + head + name + (x + " = ") + value + ";" == w + (head + name + x) + " = " + value + ";"
  {
  }

  // ---------------------------------------------------------------------
  // format_ch_def_decl, case by case

  /** A bare MACRO is a #define in the header and nothing in the source,
      whatever the testing flag: it is never promoted. */
  lemma BareMacroForms(defaults: Row, charId: Option<Row>, format: Format)
    requires Ready(defaults, charId) && Plain(defaults, charId) && defaults["DECL"] == "MACRO"
    ensures FormatChDefDecl("", defaults, charId, format) == Ok(DefineText(format, defaults["NAME"], ValueOf(defaults, charId)))
  {
    FillDefine("MACRO", format, defaults["NAME"], ValueOf(defaults, charId));
  }

  /** MACRO_<t> is a #define, unless a testing profile meets an OPTION:
      then it becomes an extern variable, its definition and its assignment. */
  lemma MacroTypedForms(defaults: Row, charId: Option<Row>, format: Format, tag: string)
    requires Ready(defaults, charId) && Plain(defaults, charId)
    requires defaults["DECL"] == "MACRO_" + tag && DeclDict(tag).Some?
    ensures FormatChDefDecl("", defaults, charId, format) ==
      Ok(if TestedOption(defaults, charId)
         then VariableText(format, CDecl(tag, defaults["NAME"]), defaults["NAME"], ValueOf(defaults, charId))
         else DefineText(format, defaults["NAME"], ValueOf(defaults, charId)))
  {
    SplitDeclOf("MACRO_", tag);
    FillMacroTemplate(tag, TestedOption(defaults, charId), format, defaults["NAME"], ValueOf(defaults, charId));
  }

  /** CONST_<t>: the declaration and definition carry "const " unless a
      testing profile meets an OPTION; the assignment is always written. */
  lemma ConstForms(defaults: Row, charId: Option<Row>, format: Format, tag: string)
    requires Ready(defaults, charId) && Plain(defaults, charId)
    requires defaults["DECL"] == "CONST_" + tag && DeclDict(tag).Some?
    ensures FormatChDefDecl("", defaults, charId, format) ==
      Ok(ConstText(format, TestedOption(defaults, charId), CDecl(tag, defaults["NAME"]), defaults["NAME"], ValueOf(defaults, charId)))
  {
    SplitDeclOf("CONST_", tag);
    FillConstTemplate(tag, TestedOption(defaults, charId), format, defaults["NAME"], ValueOf(defaults, charId));
  }

  /** VAR_<t>: a variable whatever the testing flag. */
  lemma VarForms(defaults: Row, charId: Option<Row>, format: Format, tag: string)
    requires Ready(defaults, charId) && Plain(defaults, charId)
    requires defaults["DECL"] == "VAR_" + tag && DeclDict(tag).Some?
    ensures FormatChDefDecl("", defaults, charId, format) ==
      Ok(VariableText(format, CDecl(tag, defaults["NAME"]), defaults["NAME"], ValueOf(defaults, charId)))
  {
    SplitDeclOf("VAR_", tag);
    FillVarTemplate(tag, TestedOption(defaults, charId), format, defaults["NAME"], ValueOf(defaults, charId));
  }

  /** A known base with a tag outside decl_dict fails, when no custom code is given. */
  lemma UnknownTagFails(defaults: Row, charId: Option<Row>, format: Format, prefix: string, tag: string)
    requires Ready(defaults, charId)
    requires prefix == "MACRO_" || prefix == "CONST_" || prefix == "VAR_"
    requires defaults["DECL"] == prefix + tag && DeclDict(tag).None?
    ensures FormatChDefDecl("", defaults, charId, format) == Err(UnsupportedDecl(tag))
  {
    SplitDeclOf(prefix, tag);
  }

  /** Any other DECL fails, when no custom code is given. */
  lemma UnknownDeclFails(defaults: Row, charId: Option<Row>, format: Format)
    requires Ready(defaults, charId)
    requires var d := defaults["DECL"];
      d != "MACRO" && d != "CUSTOM" && !StartsWith(d, "MACRO_") && !StartsWith(d, "CONST_") && !StartsWith(d, "VAR_")
    ensures FormatChDefDecl("", defaults, charId, format) == Err(UnsupportedDecl(defaults["DECL"]))
  {
  }

  /** CUSTOM with no custom text gives the empty text. */
  lemma CustomEmpty(defaults: Row, charId: Option<Row>, format: Format)
    requires Ready(defaults, charId) && defaults["DECL"] == "CUSTOM"
    ensures FormatChDefDecl("", defaults, charId, format) == Ok("")
  {
  }

  /** Custom text is only filled in: DECL is never checked, and "const" is
      dropped exactly for a testing profile and an OPTION whose DECL is
      neither MACRO nor CUSTOM. */
  lemma CustomCode(code: string, defaults: Row, charId: Option<Row>, format: Format)
    requires Ready(defaults, charId) && code != ""
    ensures FormatChDefDecl(code, defaults, charId, format) ==
      Ok(Fill(code, defaults["NAME"], ValueOf(defaults, charId),
              TestedOption(defaults, charId) && defaults["DECL"] != "MACRO" && defaults["DECL"] != "CUSTOM"))
  {
  }

  /** Custom text without placeholders comes back unchanged, whatever DECL says. */
  lemma CustomVerbatim(code: string, defaults: Row, charId: Option<Row>, format: Format)
    requires Ready(defaults, charId) && code != "" && '@' !in code
    ensures FormatChDefDecl(code, defaults, charId, format) == Ok(code)
  {
    CustomCode(code, defaults, charId, format);
    FillPlain(code, defaults["NAME"], ValueOf(defaults, charId),
              TestedOption(defaults, charId) && defaults["DECL"] != "MACRO" && defaults["DECL"] != "CUSTOM");
  }

  /** Only a ready toggle produces text; in particular a TYPE other than
      VALUE or OPTION fails on every call, with custom code or without. */
  lemma OkNeedsReady(code: string, defaults: Row, charId: Option<Row>, format: Format)
    ensures FormatChDefDecl(code, defaults, charId, format).Ok? ==> Ready(defaults, charId)
  {
  }

  /** The TYPE check follows the lookups and the profile checks. */
  lemma UnsupportedTypeFails(code: string, defaults: Row, charId: Option<Row>, format: Format)
    requires "TYPE" in defaults && "DECL" in defaults && "NAME" in defaults
    requires GetValue(defaults["NAME"], defaults, charId).Ok? && IsTesting(charId).Ok?
    requires CheckValueOverride(defaults["NAME"], defaults, charId).Ok?
    requires defaults["TYPE"] != "VALUE" && defaults["TYPE"] != "OPTION"
    ensures FormatChDefDecl(code, defaults, charId, format) == Err(UnsupportedType(defaults["TYPE"]))
  {
  }

  /** A TYPE starting with VALUE whose NAME is a column of the profile fails,
      even when that cell is empty. */
  lemma ValueOverrideFails(code: string, defaults: Row, profile: Row, format: Format)
    requires "TYPE" in defaults && "DECL" in defaults && "NAME" in defaults && "DEFAULT" in defaults
    requires StartsWith(defaults["TYPE"], "VALUE") && defaults["NAME"] in profile
    requires IsTesting(Some(profile)).Ok?
    ensures FormatChDefDecl(code, defaults, Some(profile), format) == Err(ValueOverride(defaults["NAME"]))
  {
  }
}
