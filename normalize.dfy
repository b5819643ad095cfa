/** clean_code: the whitespace normalizer applied to every generated file.
    Each of its regular-expression substitutions is modelled by its effect:
    trailing spaces and tabs are dropped at every line end, and a maximal
    run of line breaks is shortened under the rule of the substitution. */
module Normalize {
  import opened Text

  predicate IsBlank(c: char) {
    c == ' ' || c == '\t'
  }

  /** re.sub(r"[ \t]+$", "", s, flags=re.MULTILINE): `pend` holds the spaces
      and tabs seen since the last other character; a line break or the end
      of the text drops them, any other character keeps them. */
  function TrimFrom(s: string, pend: string): string
    decreases |s|
  {
    if |s| == 0 then ""
    else if IsBlank(s[0]) then TrimFrom(s[1..], pend + [s[0]])
    else if s[0] == '\n' then "\n" + TrimFrom(s[1..], "")
    else pend + [s[0]] + TrimFrom(s[1..], "")
  }

  function TrimLineEnds(s: string): string {
    TrimFrom(s, "")
  }

  /** The three newline substitutions of clean_code:
      BeforeClose is re.sub(r"\n\n+}", "\n}"), AfterOpen is
      re.sub(r"{\n\n+", "{\n"), Triple is re.sub(r"\n\n\n+", "\n\n"). */
  datatype Rule = BeforeClose | AfterOpen | Triple

  /** How many of a maximal run of `k` line breaks a rule keeps, given the
      characters right before and right after the run. */
  function Keep(rule: Rule, k: nat, prev: Option<char>, next: Option<char>): (m: nat)
    ensures m <= k && (k >= 1 ==> m >= 1)
  {
    match rule
    case BeforeClose => if k >= 2 && next == Some('}') then 1 else k
    case AfterOpen => if k >= 2 && prev == Some('{') then 1 else k
    case Triple => if k >= 3 then 2 else k
  }

  /** `prev` is the last character before `s` that is not a line break and
      `pend` the number of line breaks after it that are still pending. */
  function CollapseFrom(rule: Rule, s: string, prev: Option<char>, pend: nat): string
    decreases |s|
  {
    if |s| == 0 then Repeat('\n', Keep(rule, pend, prev, None))
    else if s[0] == '\n' then CollapseFrom(rule, s[1..], prev, pend + 1)
    else Repeat('\n', Keep(rule, pend, prev, Some(s[0]))) + [s[0]] + CollapseFrom(rule, s[1..], Some(s[0]), 0)
  }

  function Collapse(rule: Rule, s: string): string {
    CollapseFrom(rule, s, None, 0)
  }

  /** clean_code (generate.py:603-617). */
  function CleanCode(code: string): string {
    var c1 := Strip(code) + "\n";
    var c2 := TrimLineEnds(c1);
    var c3 := Collapse(BeforeClose, c2);
    var c4 := Collapse(AfterOpen, c3);
    Collapse(Triple, c4)
  }

  // ---------------------------------------------------------------------
  // Properties of text

  /** No line ends in a space or a tab (and neither does the text). */
  predicate NoTrailingBlank(s: string) {
    forall i :: 0 <= i < |s| && IsBlank(s[i]) ==> i + 1 < |s| && s[i + 1] != '\n'
  }

  /** The three characters x, y, z never occur in a row. */
  predicate NoWindow(s: string, x: char, y: char, z: char) {
    forall i :: 0 <= i && i + 2 < |s| ==> !(s[i] == x && s[i + 1] == y && s[i + 2] == z)
  }

  /** The three characters whose sequence a rule removes. */
  function Pattern(rule: Rule): (char, char, char) {
    match rule
    case BeforeClose => ('\n', '\n', '}')
    case AfterOpen => ('{', '\n', '\n')
    case Triple => ('\n', '\n', '\n')
  }

  predicate RuleHolds(rule: Rule, s: string) {
    NoWindow(s, Pattern(rule).0, Pattern(rule).1, Pattern(rule).2)
  }

  /** The shape clean_code's result has: a lone line break, or text that
      starts with a non-space and ends with a non-space and one line break. */
  predicate Framed(s: string) {
    s == "\n" || (|s| >= 2 && s[|s| - 1] == '\n' && !IsPySpace(s[0]) && !IsPySpace(s[|s| - 2]))
  }

  function PrevStr(prev: Option<char>): string {
    match prev
    case None => ""
    case Some(c) => [c]
  }

  lemma NoWindowSuffix(s: string, k: nat, x: char, y: char, z: char)
    requires k <= |s| && NoWindow(s, x, y, z)
    ensures NoWindow(s[k..], x, y, z)
  {
    assert forall i :: 0 <= i < |s| - k ==> s[k..][i] == s[k + i];
  }

  lemma NoTrailingBlankSuffix(s: string, k: nat)
    requires k <= |s| && NoTrailingBlank(s)
    ensures NoTrailingBlank(s[k..])
  {
    assert forall i :: 0 <= i < |s| - k ==> s[k..][i] == s[k + i];
  }

  /** One more pending line break taken from the front of the text. */
  lemma MoveBreak(p: string, pend: nat, s: string)
    requires |s| > 0 && s[0] == '\n'
    ensures p + Repeat('\n', pend + 1) + s[1..] == p + Repeat('\n', pend) + s
  {
    assert Repeat('\n', pend + 1) == Repeat('\n', pend) + "\n";
    assert "\n" + s[1..] == s;
  }

  lemma RestAfterRun(p: string, pend: nat, s: string)
    requires |s| > 0
    ensures (p + Repeat('\n', pend) + s)[|p| + pend..] == PrevStr(Some(s[0])) + Repeat('\n', 0) + s[1..]
  {
    assert [s[0]] + s[1..] == s;
  }

  // ---------------------------------------------------------------------
  // Trailing white space

  /** A blank-free-at-line-end piece ending in a non-blank may be followed
      by any text without trailing blanks. */
  lemma NoTrailingBlankConcat(a: string, b: string)
    requires |a| > 0 && !IsBlank(a[|a| - 1])
    requires forall i :: 0 <= i < |a| - 1 && IsBlank(a[i]) ==> a[i + 1] != '\n'
    requires NoTrailingBlank(b)
    ensures NoTrailingBlank(a + b)
  {
    var s := a + b;
    forall i | 0 <= i < |s| && IsBlank(s[i]) ensures i + 1 < |s| && s[i + 1] != '\n' {
      if i >= |a| {
        assert s[i] == b[i - |a|];
        assert i + 1 < |s| && s[i + 1] == b[i - |a| + 1];
      } else {
        assert i < |a| - 1;
        assert s[i + 1] == a[i + 1];
      }
    }
  }

  lemma {:induction false} TrimEstablishes(s: string, pend: string)
    requires forall i :: 0 <= i < |pend| ==> IsBlank(pend[i])
    ensures NoTrailingBlank(TrimFrom(s, pend))
    decreases |s|
  {
    if |s| == 0 {
    } else if IsBlank(s[0]) {
      TrimEstablishes(s[1..], pend + [s[0]]);
    } else if s[0] == '\n' {
      TrimEstablishes(s[1..], "");
      NoTrailingBlankConcat("\n", TrimFrom(s[1..], ""));
    } else {
      TrimEstablishes(s[1..], "");
      var a := pend + [s[0]];
      assert forall i :: 0 <= i < |pend| ==> a[i] == pend[i];
      assert a[|pend|] == s[0];
      NoTrailingBlankConcat(a, TrimFrom(s[1..], ""));
    }
  }

  /** Pending blanks in text without trailing blanks are followed by some
      character other than a line break. */
  lemma BlankRunContinues(pend: string, s: string)
    requires |pend| > 0 && IsBlank(pend[|pend| - 1])
    requires NoTrailingBlank(pend + s)
    ensures |s| > 0 && s[0] != '\n'
  {
    var w := pend + s;
    var i := |pend| - 1;
    assert IsBlank(w[i]);
    assert i + 1 < |w| && w[i + 1] != '\n';
    assert w[i + 1] == s[0];
  }

  lemma {:induction false} TrimIdentity(s: string, pend: string)
    requires forall i :: 0 <= i < |pend| ==> IsBlank(pend[i])
    requires NoTrailingBlank(pend + s)
    ensures TrimFrom(s, pend) == pend + s
    decreases |s|, 1
  {
    if |pend| > 0 {
      BlankRunContinues(pend, s);
    }
    if |s| == 0 {
    } else if IsBlank(s[0]) {
      assert (pend + [s[0]]) + s[1..] == pend + s;
      TrimIdentity(s[1..], pend + [s[0]]);
    } else {
      TrimIdentityRest(s, pend);
    }
  }

  lemma {:induction false} TrimIdentityRest(s: string, pend: string)
    requires |s| > 0 && !IsBlank(s[0])
    requires s[0] == '\n' ==> pend == ""
    requires NoTrailingBlank(pend + s)
    ensures TrimFrom(s, pend) == pend + s
    decreases |s|, 0
  {
    NoTrailingBlankAfter(pend, s);
    TrimIdentity(s[1..], "");
    TrimStep(s, pend);
  }

  /** The text after the first character of `s` has no trailing blanks. */
  lemma NoTrailingBlankAfter(pend: string, s: string)
    requires |s| > 0 && NoTrailingBlank(pend + s)
    ensures NoTrailingBlank("" + s[1..])
  {
    var w := pend + s;
    assert w[|pend| + 1..] == s[1..] == "" + s[1..];
    NoTrailingBlankSuffix(w, |pend| + 1);
  }

  /** One step of TrimFrom at a character that is not a blank, when the
      rest of the text comes out unchanged. */
  lemma TrimStep(s: string, pend: string)
    requires |s| > 0 && !IsBlank(s[0])
    requires s[0] == '\n' ==> pend == ""
    requires TrimFrom(s[1..], "") == "" + s[1..]
    ensures TrimFrom(s, pend) == pend + s
  {
    if s[0] == '\n' {
      assert "\n" + s[1..] == s;
    } else {
      assert pend + [s[0]] + s[1..] == pend + s;
    }
  }

  lemma {:induction false} TrimEndsNewline(a: string, pend: string)
    ensures TrimFrom(a + "\n", pend) == TrimFrom(a, pend) + "\n"
    decreases |a|
  {
    var s := a + "\n";
    if |a| == 0 {
      assert s == "\n";
      assert s[1..] == "";
    } else {
      assert s[0] == a[0] && s[1..] == a[1..] + "\n";
      if IsBlank(a[0]) {
        TrimEndsNewline(a[1..], pend + [a[0]]);
      } else {
        TrimEndsNewline(a[1..], "");
      }
    }
  }

  lemma {:induction false} TrimLast(s: string, pend: string)
    requires |s| > 0 && !IsBlank(s[|s| - 1])
    ensures var t := TrimFrom(s, pend); |t| > 0 && t[|t| - 1] == s[|s| - 1]
    decreases |s|
  {
    if |s| > 1 {
      assert s[1..][|s| - 2] == s[|s| - 1];
      if IsBlank(s[0]) {
        TrimLast(s[1..], pend + [s[0]]);
      } else {
        TrimLast(s[1..], "");
      }
    }
  }

  // ---------------------------------------------------------------------
  // Newline runs

  /** One step of a rule: a run of `pend` line breaks between `p` and the
      non-break `tail[0]`, shortened to `m`, creates no window whose middle
      is a line break and which holds another line break. */
  lemma WindowStep(p: string, pend: nat, m: nat, rest: string, tail: string, x: char, y: char, z: char)
    requires y == '\n' && (x == '\n' || z == '\n')
    requires |p| <= 1 && (|p| == 1 ==> p[0] != '\n') && m <= pend
    requires |rest| > 0 && |tail| > 0 && rest[0] == tail[0] && tail[0] != '\n'
    requires NoWindow(p + Repeat('\n', pend) + rest, x, y, z)
    requires NoWindow(tail, x, y, z)
    ensures NoWindow(p + Repeat('\n', m) + tail, x, y, z)
  {
    var w := p + Repeat('\n', pend) + rest;
    var o := p + Repeat('\n', m) + tail;
    var h := |p| + m;
    var k := |p| + pend;
    forall i | 0 <= i && i + 2 < |o| ensures !(o[i] == x && o[i + 1] == y && o[i + 2] == z) {
      if i >= h {
        assert o[i] == tail[i - h] && o[i + 1] == tail[i - h + 1] && o[i + 2] == tail[i - h + 2];
      } else if i == h - 1 {
        assert o[i + 1] == tail[0];
      } else if i == h - 2 {
        if m >= 2 {
          assert o[i] == '\n' && o[i + 1] == '\n' && o[i + 2] == tail[0];
          assert w[k - 2] == '\n' && w[k - 1] == '\n' && w[k] == rest[0];
        } else {
          assert o[i] == p[0] && o[i + 2] == tail[0];
        }
      } else {
        assert o[i] == w[i] && o[i + 1] == w[i + 1] && o[i + 2] == w[i + 2];
      }
    }
  }

  /** The last run of a rule: `m` of `pend` trailing line breaks kept. */
  lemma WindowEnd(p: string, pend: nat, m: nat, x: char, y: char, z: char)
    requires m <= pend && NoWindow(p + Repeat('\n', pend), x, y, z)
    ensures NoWindow(p + Repeat('\n', m), x, y, z)
  {
    var o := p + Repeat('\n', m);
    var w := p + Repeat('\n', pend);
    assert forall j :: 0 <= j < |o| ==> o[j] == w[j];
  }

  /** Shortening runs of line breaks (never to nothing) cannot create a
      window whose middle character is a line break and which holds at
      least one more line break. */
  lemma {:induction false} CollapsePreserves(rule: Rule, s: string, prev: Option<char>, pend: nat,
                                              x: char, y: char, z: char)
    requires y == '\n' && (x == '\n' || z == '\n')
    requires prev != Some('\n')
    requires NoWindow(PrevStr(prev) + Repeat('\n', pend) + s, x, y, z)
    ensures NoWindow(PrevStr(prev) + CollapseFrom(rule, s, prev, pend), x, y, z)
    decreases |s|, 1
  {
    var p := PrevStr(prev);
    if |s| == 0 {
      assert p + Repeat('\n', pend) + s == p + Repeat('\n', pend);
      WindowEnd(p, pend, Keep(rule, pend, prev, None), x, y, z);
    } else if s[0] == '\n' {
      MoveBreak(p, pend, s);
      CollapsePreserves(rule, s[1..], prev, pend + 1, x, y, z);
    } else {
      CollapsePreservesAt(rule, s, prev, pend, x, y, z);
    }
  }

  lemma {:induction false} CollapsePreservesAt(rule: Rule, s: string, prev: Option<char>, pend: nat,
                                                x: char, y: char, z: char)
    requires y == '\n' && (x == '\n' || z == '\n')
    requires prev != Some('\n') && |s| > 0 && s[0] != '\n'
    requires NoWindow(PrevStr(prev) + Repeat('\n', pend) + s, x, y, z)
    ensures NoWindow(PrevStr(prev) + CollapseFrom(rule, s, prev, pend), x, y, z)
    decreases |s|, 0
  {
    var p := PrevStr(prev);
    var c := s[0];
    var m := Keep(rule, pend, prev, Some(c));
    NoWindowAfterChar(p, pend, s, x, y, z);
    CollapsePreserves(rule, s[1..], Some(c), 0, x, y, z);
    var tail := [c] + CollapseFrom(rule, s[1..], Some(c), 0);
    WindowStep(p, pend, m, s, tail, x, y, z);
    CollapseCharStep(rule, p, s, prev, pend);
  }

  /** The text from the first character of `s` on keeps a missing window. */
  lemma NoWindowAfterChar(p: string, pend: nat, s: string, x: char, y: char, z: char)
    requires |s| > 0 && NoWindow(p + Repeat('\n', pend) + s, x, y, z)
    ensures NoWindow(PrevStr(Some(s[0])) + Repeat('\n', 0) + s[1..], x, y, z)
  {
    RestAfterRun(p, pend, s);
    NoWindowSuffix(p + Repeat('\n', pend) + s, |p| + pend, x, y, z);
  }

  /** One step of a rule at a character other than a line break. */
  lemma CollapseCharStep(rule: Rule, p: string, s: string, prev: Option<char>, pend: nat)
    requires |s| > 0 && s[0] != '\n'
    ensures p + CollapseFrom(rule, s, prev, pend)
         == p + Repeat('\n', Keep(rule, pend, prev, Some(s[0]))) + ([s[0]] + CollapseFrom(rule, s[1..], Some(s[0]), 0))
  {
  }

  /** One step keeps the absence of trailing blanks. */
  lemma BlankStep(p: string, pend: nat, m: nat, rest: string, tail: string)
    requires |p| <= 1 && m <= pend && (pend == 0 ==> m == 0)
    requires |rest| > 0 && |tail| > 0 && rest[0] == tail[0] && tail[0] != '\n'
    requires NoTrailingBlank(p + Repeat('\n', pend) + rest)
    requires NoTrailingBlank(tail)
    ensures NoTrailingBlank(p + Repeat('\n', m) + tail)
  {
    var w := p + Repeat('\n', pend) + rest;
    var o := p + Repeat('\n', m) + tail;
    var h := |p| + m;
    forall i | 0 <= i < |o| && IsBlank(o[i]) ensures i + 1 < |o| && o[i + 1] != '\n' {
      if i >= h {
        assert o[i] == tail[i - h];
        assert i - h + 1 < |tail| && o[i + 1] == tail[i - h + 1];
      } else {
        assert i == 0 && |p| == 1 && o[0] == p[0] == w[0];
        assert w[1] != '\n';
        assert pend == 0 && m == 0;
        assert o[1] == tail[0];
      }
    }
  }

  lemma {:induction false} CollapseKeepsNoTrailingBlank(rule: Rule, s: string, prev: Option<char>, pend: nat)
    requires prev != Some('\n')
    requires NoTrailingBlank(PrevStr(prev) + Repeat('\n', pend) + s)
    ensures NoTrailingBlank(PrevStr(prev) + CollapseFrom(rule, s, prev, pend))
    decreases |s|, 1
  {
    var p := PrevStr(prev);
    if |s| == 0 {
      var w := p + Repeat('\n', pend) + s;
      var o := p + Repeat('\n', Keep(rule, pend, prev, None));
      if |p| > 0 {
        assert w[0] == p[0];
        assert |w| == 1 || w[1] == '\n';
      }
      assert forall j :: 0 <= j < |o| ==> !IsBlank(o[j]);
    } else if s[0] == '\n' {
      MoveBreak(p, pend, s);
      CollapseKeepsNoTrailingBlank(rule, s[1..], prev, pend + 1);
    } else {
      CollapseKeepsNoTrailingBlankAt(rule, s, prev, pend);
    }
  }

  lemma {:induction false} CollapseKeepsNoTrailingBlankAt(rule: Rule, s: string, prev: Option<char>, pend: nat)
    requires prev != Some('\n') && |s| > 0 && s[0] != '\n'
    requires NoTrailingBlank(PrevStr(prev) + Repeat('\n', pend) + s)
    ensures NoTrailingBlank(PrevStr(prev) + CollapseFrom(rule, s, prev, pend))
    decreases |s|, 0
  {
    var p := PrevStr(prev);
    var c := s[0];
    var m := Keep(rule, pend, prev, Some(c));
    RestAfterRun(p, pend, s);
    NoTrailingBlankSuffix(p + Repeat('\n', pend) + s, |p| + pend);
    CollapseKeepsNoTrailingBlank(rule, s[1..], Some(c), 0);
    var tail := [c] + CollapseFrom(rule, s[1..], Some(c), 0);
    BlankStep(p, pend, m, s, tail);
    CollapseCharUnfold(rule, s, prev, pend);
    Assoc(p, Repeat('\n', m), tail);
  }

  /** One step of a rule removes that rule's pattern around the run. */
  lemma EstablishStep(rule: Rule, p: string, m: nat, tail: string)
    requires |p| <= 1 && (|p| == 1 ==> p[0] != '\n') && |tail| > 0 && tail[0] != '\n'
    requires rule == BeforeClose ==> m <= 1 || tail[0] != '}'
    requires rule == AfterOpen ==> m <= 1 || |p| == 0 || p[0] != '{'
    requires rule == Triple ==> m <= 2
    requires RuleHolds(rule, tail)
    ensures RuleHolds(rule, p + Repeat('\n', m) + tail)
  {
    var (x, y, z) := Pattern(rule);
    var o := p + Repeat('\n', m) + tail;
    var h := |p| + m;
    forall i | 0 <= i && i + 2 < |o| ensures !(o[i] == x && o[i + 1] == y && o[i + 2] == z) {
      if i >= h {
        assert o[i] == tail[i - h] && o[i + 1] == tail[i - h + 1] && o[i + 2] == tail[i - h + 2];
      } else if i == h - 1 {
        assert o[i + 1] == tail[0];
      } else if i == h - 2 {
        assert o[i + 2] == tail[0];
        assert i == 0 && |p| == 1 ==> o[i] == p[0];
        assert i > 0 || |p| == 0 ==> o[i] == '\n';
      } else {
        assert o[i + 2] == '\n' && o[i + 1] == '\n';
        assert i == 0 && |p| == 1 ==> o[i] == p[0];
      }
    }
  }

  lemma EstablishEnd(rule: Rule, p: string, m: nat)
    requires |p| <= 1 && (|p| == 1 ==> p[0] != '\n')
    requires rule == AfterOpen ==> m <= 1 || |p| == 0 || p[0] != '{'
    requires rule == Triple ==> m <= 2
    ensures RuleHolds(rule, p + Repeat('\n', m))
  {
    var o := p + Repeat('\n', m);
    assert forall j :: |p| <= j < |o| ==> o[j] == '\n';
    assert |p| > 0 ==> o[0] == p[0];
  }

  /** Each rule removes its pattern. */
  lemma {:induction false} CollapseEstablishes(rule: Rule, s: string, prev: Option<char>, pend: nat)
    requires prev != Some('\n')
    ensures RuleHolds(rule, PrevStr(prev) + CollapseFrom(rule, s, prev, pend))
    decreases |s|, 1
  {
    if |s| == 0 {
      EstablishEnd(rule, PrevStr(prev), Keep(rule, pend, prev, None));
    } else if s[0] == '\n' {
      CollapseEstablishes(rule, s[1..], prev, pend + 1);
    } else {
      CollapseEstablishesChar(rule, s, prev, pend);
    }
  }

  /** The step of CollapseEstablishes at a character other than a line break. */
  lemma {:induction false} CollapseEstablishesChar(rule: Rule, s: string, prev: Option<char>, pend: nat)
    requires prev != Some('\n') && |s| > 0 && s[0] != '\n'
    ensures RuleHolds(rule, PrevStr(prev) + CollapseFrom(rule, s, prev, pend))
    decreases |s|, 0
  {
    var p := PrevStr(prev);
    var c := s[0];
    var m := Keep(rule, pend, prev, Some(c));
    CollapseEstablishes(rule, s[1..], Some(c), 0);
    var tail := [c] + CollapseFrom(rule, s[1..], Some(c), 0);
    EstablishStep(rule, p, m, tail);
    CollapseCharUnfold(rule, s, prev, pend);
    Assoc(p, Repeat('\n', m), tail);
  }

  lemma CollapseCharUnfold(rule: Rule, s: string, prev: Option<char>, pend: nat)
    requires |s| > 0 && s[0] != '\n'
    ensures CollapseFrom(rule, s, prev, pend) ==
      Repeat('\n', Keep(rule, pend, prev, Some(s[0]))) + ([s[0]] + CollapseFrom(rule, s[1..], Some(s[0]), 0))
  {
    Assoc(Repeat('\n', Keep(rule, pend, prev, Some(s[0]))), [s[0]], CollapseFrom(rule, s[1..], Some(s[0]), 0));
  }

  /** A rule keeps a run it finds in text without its pattern. */
  lemma KeepWhole(rule: Rule, p: string, pend: nat, rest: string, prev: Option<char>, next: Option<char>)
    requires p == PrevStr(prev)
    requires next == (if |rest| > 0 then Some(rest[0]) else None)
    requires RuleHolds(rule, p + Repeat('\n', pend) + rest)
    ensures Keep(rule, pend, prev, next) == pend
  {
    var w := p + Repeat('\n', pend) + rest;
    var k := |p| + pend;
    assert pend >= 2 && |rest| > 0 ==> w[k - 2] == '\n' && w[k - 1] == '\n' && w[k] == rest[0];
    assert pend >= 2 && |p| == 1 ==> w[0] == p[0] && w[1] == '\n' && w[2] == '\n';
    assert pend >= 3 ==> w[|p|] == '\n' && w[|p| + 1] == '\n' && w[|p| + 2] == '\n';
  }

  /** A rule changes nothing in text that does not hold its pattern. */
  lemma {:induction false} CollapseIdentity(rule: Rule, s: string, prev: Option<char>, pend: nat)
    requires prev != Some('\n')
    requires RuleHolds(rule, PrevStr(prev) + Repeat('\n', pend) + s)
    ensures CollapseFrom(rule, s, prev, pend) == Repeat('\n', pend) + s
    decreases |s|, 1
  {
    if |s| == 0 {
      KeepWhole(rule, PrevStr(prev), pend, s, prev, None);
    } else if s[0] == '\n' {
      CollapseIdentityBreak(rule, s, prev, pend);
    } else {
      CollapseIdentityChar(rule, s, prev, pend);
    }
  }

  lemma {:induction false} CollapseIdentityBreak(rule: Rule, s: string, prev: Option<char>, pend: nat)
    requires prev != Some('\n') && |s| > 0 && s[0] == '\n'
    requires RuleHolds(rule, PrevStr(prev) + Repeat('\n', pend) + s)
    ensures CollapseFrom(rule, s, prev, pend) == Repeat('\n', pend) + s
    decreases |s|, 0
  {
    MoveBreak(PrevStr(prev), pend, s);
    CollapseIdentity(rule, s[1..], prev, pend + 1);
    MoveBreak("", pend, s);
    assert "" + Repeat('\n', pend + 1) + s[1..] == Repeat('\n', pend + 1) + s[1..];
    assert "" + Repeat('\n', pend) + s == Repeat('\n', pend) + s;
  }

  lemma {:induction false} CollapseIdentityChar(rule: Rule, s: string, prev: Option<char>, pend: nat)
    requires prev != Some('\n') && |s| > 0 && s[0] != '\n'
    requires RuleHolds(rule, PrevStr(prev) + Repeat('\n', pend) + s)
    ensures CollapseFrom(rule, s, prev, pend) == Repeat('\n', pend) + s
    decreases |s|, 0
  {
    var c := s[0];
    KeepWhole(rule, PrevStr(prev), pend, s, prev, Some(c));
    RuleHoldsAfterChar(rule, PrevStr(prev), pend, s);
    CollapseIdentity(rule, s[1..], Some(c), 0);
    assert Repeat('\n', pend) + [c] + s[1..] == Repeat('\n', pend) + s;
  }

  /** The text from the first character of `s` on still holds the rule. */
  lemma RuleHoldsAfterChar(rule: Rule, p: string, pend: nat, s: string)
    requires |s| > 0 && RuleHolds(rule, p + Repeat('\n', pend) + s)
    ensures RuleHolds(rule, PrevStr(Some(s[0])) + Repeat('\n', 0) + s[1..])
  {
    var (x, y, z) := Pattern(rule);
    NoWindowAfterChar(p, pend, s, x, y, z);
  }

  /** A rule keeps the first character when it is not a line break. */
  lemma CollapseFirst(rule: Rule, s: string)
    requires |s| > 0 && s[0] != '\n'
    ensures var o := Collapse(rule, s); |o| > 0 && o[0] == s[0]
  {
    assert Repeat('\n', Keep(rule, 0, None, Some(s[0]))) == "";
  }

  /** A rule keeps the last character before a final single line break. */
  lemma {:induction false} CollapseLast(rule: Rule, s: string, prev: Option<char>, pend: nat)
    requires |s| >= 2 && s[|s| - 1] == '\n' && s[|s| - 2] != '\n'
    ensures var o := CollapseFrom(rule, s, prev, pend);
      |o| >= 2 && o[|o| - 1] == '\n' && o[|o| - 2] == s[|s| - 2]
    decreases |s|
  {
    if s[0] == '\n' {
      assert s[1..][|s| - 2] == '\n' && s[1..][|s| - 3] == s[|s| - 2];
      CollapseLast(rule, s[1..], prev, pend + 1);
    } else if |s| == 2 {
      var c := s[0];
      assert s[1..] == "\n";
      assert s[1..][1..] == "";
      assert CollapseFrom(rule, s[1..], Some(c), 0) == CollapseFrom(rule, "", Some(c), 1);
      assert Repeat('\n', Keep(rule, 1, Some(c), None)) == "\n";
    } else {
      assert s[1..][|s| - 2] == '\n' && s[1..][|s| - 3] == s[|s| - 2];
      CollapseLast(rule, s[1..], Some(s[0]), 0);
    }
  }

  lemma CollapseFramed(rule: Rule, s: string)
    requires Framed(s)
    ensures Framed(Collapse(rule, s))
  {
    if s == "\n" {
      assert s[1..] == "";
      assert Collapse(rule, s) == CollapseFrom(rule, "", None, 1);
      assert Repeat('\n', Keep(rule, 1, None, None)) == "\n";
    } else {
      CollapseFirst(rule, s);
      CollapseLast(rule, s, None, 0);
    }
  }

  lemma TrimFramed(x: string)
    requires |x| == 0 || (!IsPySpace(x[0]) && !IsPySpace(x[|x| - 1]))
    ensures Framed(TrimLineEnds(x + "\n"))
  {
    TrimEndsNewline(x, "");
    if |x| == 0 {
    } else {
      TrimLast(x, "");
      var t := TrimFrom(x, "");
      assert t[0] == x[0];
      assert (t + "\n")[|t| - 1] == t[|t| - 1];
    }
  }

  /** The strip step gives back framed text unchanged. */
  lemma StripStepFramed(s: string)
    requires Framed(s)
    ensures Strip(s) + "\n" == s
  {
    if s == "\n" {
      assert LStrip(s) == LStrip(s[1..]);
    } else {
      assert LStrip(s) == s;
      assert s[..|s| - 1][|s| - 2] == s[|s| - 2];
      assert RStrip(s) == RStrip(s[..|s| - 1]) == s[..|s| - 1];
    }
  }

  /** The stages of clean_code, named for the proofs below. */
  function Stages(code: string): (r: seq<string>)
    ensures |r| == 5
  {
    var c1 := Strip(code) + "\n";
    var c2 := TrimLineEnds(c1);
    var c3 := Collapse(BeforeClose, c2);
    var c4 := Collapse(AfterOpen, c3);
    [c1, c2, c3, c4, Collapse(Triple, c4)]
  }

  lemma StagesFramed(code: string)
    ensures CleanCode(code) == Stages(code)[4] && Framed(Stages(code)[4])
  {
    var st := Stages(code);
    TrimFramed(Strip(code));
    CollapseFramed(BeforeClose, st[1]);
    CollapseFramed(AfterOpen, st[2]);
    CollapseFramed(Triple, st[3]);
  }

  /** Helper: with no character in front and nothing pending, a rule's
      statements about `PrevStr(prev) + Repeat('\n', pend) + s` are about `s`. */
  lemma Bare(s: string)
    ensures PrevStr(None) + Repeat('\n', 0) + s == s && PrevStr(None) + s == s
  {
  }

  lemma StagesNoTrailingBlank(code: string)
    ensures NoTrailingBlank(Stages(code)[4])
  {
    var st := Stages(code);
    TrimEstablishes(st[0], "");
    Bare(st[1]);
    CollapseKeepsNoTrailingBlank(BeforeClose, st[1], None, 0);
    Bare(st[2]);
    CollapseKeepsNoTrailingBlank(AfterOpen, st[2], None, 0);
    Bare(st[3]);
    CollapseKeepsNoTrailingBlank(Triple, st[3], None, 0);
    Bare(st[4]);
  }

  lemma StagesRuns(code: string)
    ensures NoWindow(Stages(code)[4], '\n', '\n', '\n')
    ensures NoWindow(Stages(code)[4], '{', '\n', '\n')
    ensures NoWindow(Stages(code)[4], '\n', '\n', '}')
  {
    var st := Stages(code);
    Bare(st[2]);
    Bare(st[3]);
    Bare(st[4]);
    CollapseEstablishes(BeforeClose, st[1], None, 0);
    CollapsePreserves(AfterOpen, st[2], None, 0, '\n', '\n', '}');
    CollapseEstablishes(AfterOpen, st[2], None, 0);
    CollapsePreserves(Triple, st[3], None, 0, '\n', '\n', '}');
    CollapsePreserves(Triple, st[3], None, 0, '{', '\n', '\n');
    CollapseEstablishes(Triple, st[3], None, 0);
  }

  lemma TrimFixed(r: string)
    requires NoTrailingBlank(r)
    ensures TrimLineEnds(r) == r
  {
    assert "" + r == r;
    TrimIdentity(r, "");
  }

  lemma CollapseFixed(rule: Rule, r: string)
    requires RuleHolds(rule, r)
    ensures Collapse(rule, r) == r
  {
    Bare(r);
    CollapseIdentity(rule, r, None, 0);
  }

  /** Text with every property clean_code guarantees is left unchanged by it. */
  lemma CleanCodeFixpoint(r: string)
    requires Framed(r) && NoTrailingBlank(r)
    requires NoWindow(r, '\n', '\n', '\n') && NoWindow(r, '{', '\n', '\n') && NoWindow(r, '\n', '\n', '}')
    ensures CleanCode(r) == r
  {
    StripStepFramed(r);
    TrimFixed(r);
    CollapseFixed(BeforeClose, r);
    CollapseFixed(AfterOpen, r);
    CollapseFixed(Triple, r);
  }

  /** The shape of clean_code's output: the text ends in exactly one line
      break, no line ends in a space or a tab, there are never three line
      breaks in a row, and no empty line follows a `{` or precedes a `}`. */
  predicate Clean(r: string) {
    && |r| >= 1 && r[|r| - 1] == '\n' && (|r| == 1 || r[|r| - 2] != '\n')
    && NoTrailingBlank(r)
    && NoWindow(r, '\n', '\n', '\n')
    && NoWindow(r, '{', '\n', '\n')
    && NoWindow(r, '\n', '\n', '}')
  }

  /** What clean_code guarantees: the text ends in exactly one line break,
      no line ends in a space or a tab, there are never three line breaks in
      a row, no empty line follows a `{` or precedes a `}`, and cleaning the
      result again changes nothing. */
  lemma CleanCodeSpec(code: string)
    ensures Clean(CleanCode(code)) && CleanCode(CleanCode(code)) == CleanCode(code)
  {
    StagesFramed(code);
    StagesNoTrailingBlank(code);
    StagesRuns(code);
    CleanCodeFixpoint(CleanCode(code));
  }
}
