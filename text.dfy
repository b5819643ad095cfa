/** String operations of Python that the generator relies on: str.replace,
    str.split / str.join on a one-character separator, str.strip, the ASCII part
    of str.lower / str.upper, str(int) and int(str). */
module Text {

  /** Python's str.startswith. */
  predicate StartsWith(s: string, prefix: string) {
    |prefix| <= |s| && s[..|prefix|] == prefix
  }

  /** Python's `sub in s` (substring search). */
  predicate Contains(s: string, sub: string)
    decreases |s|
  {
    StartsWith(s, sub) || (|s| > 0 && Contains(s[1..], sub))
  }

  /** Python's str.replace(pat, rep) for a non-empty `pat`: every
      non-overlapping occurrence, scanning from the left, is replaced. */
  function Replace(s: string, pat: string, rep: string): string
    requires |pat| > 0
    decreases |s|
  {
    if |s| == 0 then s
    else if StartsWith(s, pat) then rep + Replace(s[|pat|..], pat, rep)
    else [s[0]] + Replace(s[1..], pat, rep)
  }

  /** A string in which no character of `pat` starts a match passes
      through the replacement unchanged. */
  lemma {:induction false} ReplaceAbsent(s: string, pat: string, rep: string)
    requires |pat| > 0 && pat[0] !in s
    ensures Replace(s, pat, rep) == s
    decreases |s|
  {
    if |s| > 0 {
      assert s[0] != pat[0];
      ReplaceAbsent(s[1..], pat, rep);
    }
  }

  /** A prefix in which `pat` cannot start is copied unchanged. */
  lemma {:induction false} ReplaceSkipPrefix(a: string, s: string, pat: string, rep: string)
    requires |pat| > 0 && pat[0] !in a
    ensures Replace(a + s, pat, rep) == a + Replace(s, pat, rep)
    decreases |a|
  {
    if |a| > 0 {
      assert (a + s)[0] == a[0] != pat[0];
      assert !StartsWith(a + s, pat);
      assert (a + s)[1..] == a[1..] + s;
      ReplaceSkipPrefix(a[1..], s, pat, rep);
      assert Replace(a + s, pat, rep) == [a[0]] + Replace(a[1..] + s, pat, rep);
      assert [a[0]] + a[1..] == a;
    } else {
      assert a + s == s;
    }
  }

  /** A leading occurrence of `pat` is replaced and scanning resumes after it. */
  lemma ReplaceAtFront(s: string, pat: string, rep: string)
    requires |pat| > 0
    ensures Replace(pat + s, pat, rep) == rep + Replace(s, pat, rep)
  {
    assert StartsWith(pat + s, pat);
    assert (pat + s)[|pat|..] == s;
  }

  /** One character that does not begin an occurrence of `pat` is kept. */
  lemma ReplaceKeepFirst(c: char, s: string, pat: string, rep: string)
    requires |pat| > 0 && !StartsWith([c] + s, pat)
    ensures Replace([c] + s, pat, rep) == [c] + Replace(s, pat, rep)
  {
    assert ([c] + s)[1..] == s;
  }

  /** Some position shared by `a` and `pat` holds different characters. */
  predicate Differs(a: string, pat: string)
    decreases |a|
  {
    |a| > 0 && |pat| > 0 && (a[0] != pat[0] || Differs(a[1..], pat[1..]))
  }

  /** No occurrence of `pat` can begin inside `a`, whatever follows `a`. */
  predicate NoStartIn(a: string, pat: string)
    decreases |a|
  {
    |a| == 0 || (Differs(a, pat) && NoStartIn(a[1..], pat))
  }

  lemma {:induction false} DiffersIndex(a: string, pat: string) returns (j: nat)
    requires Differs(a, pat)
    ensures j < |a| && j < |pat| && a[j] != pat[j]
    decreases |a|
  {
    if a[0] != pat[0] {
      j := 0;
    } else {
      var k := DiffersIndex(a[1..], pat[1..]);
      j := k + 1;
    }
  }

  lemma DiffersNoStart(a: string, s: string, pat: string)
    requires Differs(a, pat)
    ensures !StartsWith(a + s, pat)
  {
    var j := DiffersIndex(a, pat);
    assert (a + s)[j] == a[j];
    assert |pat| <= |a + s| ==> (a + s)[..|pat|][j] != pat[j];
  }

  /** A prefix in which no occurrence can begin is copied unchanged. */
  lemma {:induction false} ReplaceSkip(a: string, s: string, pat: string, rep: string)
    requires |pat| > 0 && NoStartIn(a, pat)
    ensures Replace(a + s, pat, rep) == a + Replace(s, pat, rep)
    decreases |a|
  {
    if |a| == 0 {
      assert a + s == s;
    } else {
      DiffersNoStart(a, s, pat);
      assert (a + s)[1..] == a[1..] + s;
      ReplaceSkip(a[1..], s, pat, rep);
      assert [a[0]] + a[1..] == a;
    }
  }

  /** Two prefixes in which no occurrence can begin are copied unchanged. */
  lemma ReplaceSkipTwo(a: string, b: string, s: string, pat: string, rep: string)
    requires |pat| > 0 && NoStartIn(a, pat) && NoStartIn(b, pat)
    ensures Replace(a + b + s, pat, rep) == a + b + Replace(s, pat, rep)
  {
    assert a + b + s == a + (b + s);
    ReplaceSkip(a, b + s, pat, rep);
    ReplaceSkip(b, s, pat, rep);
  }

  /** Regrouping of concatenations. */
  lemma Assoc(a: string, b: string, c: string)
    ensures a + b + c == a + (b + c)
  {
  }

  lemma SeqAssoc<T>(a: seq<T>, b: seq<T>, c: seq<T>)
    ensures a + b + c == a + (b + c)
  {
  }

  lemma Regroup(a: string, b: string, c: string, d: string)
    ensures a + b + c + d == a + (b + (c + d))
    ensures a + b + c + d == a + (b + c + d)
  {
  }

  /** With nothing after it, such a prefix is left as it is. */
  lemma ReplaceSkipAll(a: string, pat: string, rep: string)
    requires |pat| > 0 && NoStartIn(a, pat)
    ensures Replace(a, pat, rep) == a
  {
    ReplaceSkip(a, "", pat, rep);
    assert a + "" == a;
  }

  /** One occurrence after a prefix in which none can begin. */
  lemma ReplaceFirst(a: string, b: string, pat: string, rep: string)
    requires |pat| > 0 && NoStartIn(a, pat)
    ensures Replace(a + pat + b, pat, rep) == a + rep + Replace(b, pat, rep)
  {
    ReplaceSkip(a, pat + b, pat, rep);
    assert a + pat + b == a + (pat + b);
    ReplaceAtFront(b, pat, rep);
  }

  /** A lone `@`-like lead character followed by text without it: no
      occurrence of a pattern that starts and ends with that character. */
  lemma LeadThenFree(c: char, z: string, pat: string, rep: string)
    requires |pat| >= 2 && pat[0] == c && pat[|pat| - 1] == c && c !in z
    ensures Replace([c] + z, pat, rep) == [c] + z
  {
    var s := [c] + z;
    assert |pat| <= |s| ==> s[..|pat|][|pat| - 1] == z[|pat| - 2];
    assert s[1..] == z;
    ReplaceAbsent(z, pat, rep);
  }

  /** Text missing some character of `pat` holds no occurrence of it. */
  lemma {:induction false} ReplaceMissing(s: string, pat: string, rep: string, k: nat)
    requires k < |pat| && pat[k] !in s
    ensures Replace(s, pat, rep) == s
    decreases |s|
  {
    if |s| > 0 {
      assert |pat| <= |s| ==> s[..|pat|][k] == s[k];
      ReplaceMissing(s[1..], pat, rep, k);
      assert [s[0]] + s[1..] == s;
    }
  }

  /** Text without the first character of `pat` holds no occurrence start. */
  lemma {:induction false} NoStartFree(a: string, pat: string)
    requires |pat| > 0 && pat[0] !in a
    ensures NoStartIn(a, pat)
    decreases |a|
  {
    if |a| > 0 {
      assert a[0] != pat[0];
      NoStartFree(a[1..], pat);
    }
  }

  /** Text in which `pat` does not occur is left as it is. */
  lemma {:induction false} ReplaceUnmatched(s: string, pat: string, rep: string)
    requires |pat| > 0 && !Contains(s, pat)
    ensures Replace(s, pat, rep) == s
    decreases |s|
  {
    if |s| > 0 {
      ReplaceUnmatched(s[1..], pat, rep);
      assert [s[0]] + s[1..] == s;
    }
  }

  /** Text missing some character of `sub` does not contain it. */
  lemma {:induction false} MissingNotContained(s: string, sub: string, k: nat)
    requires k < |sub| && sub[k] !in s
    ensures !Contains(s, sub)
    decreases |s|
  {
    assert |sub| <= |s| ==> s[..|sub|][k] == s[k];
    if |s| > 0 {
      MissingNotContained(s[1..], sub, k);
    }
  }

  /** An occurrence cannot reach into a tail lacking the last character of `sub`. */
  lemma {:induction false} NotContainedBefore(v: string, z: string, sub: string)
    requires |sub| > 0 && sub[|sub| - 1] !in z && !Contains(v, sub)
    ensures !Contains(v + z, sub)
    decreases |v|
  {
    if |v| == 0 {
      assert v + z == z;
      MissingNotContained(z, sub, |sub| - 1);
    } else {
      if |sub| <= |v| {
        assert (v + z)[..|sub|] == v[..|sub|];
      } else if |sub| <= |v + z| {
        assert (v + z)[..|sub|][|sub| - 1] == z[|sub| - 1 - |v|];
      }
      assert (v + z)[1..] == v[1..] + z;
      NotContainedBefore(v[1..], z, sub);
    }
  }

  /** An occurrence cannot start in a head lacking the first character of `sub`. */
  lemma {:induction false} NotContainedAfter(x: string, t: string, sub: string)
    requires |sub| > 0 && sub[0] !in x && !Contains(t, sub)
    ensures !Contains(x + t, sub)
    decreases |x|
  {
    if |x| == 0 {
      assert x + t == t;
    } else {
      assert (x + t)[0] == x[0];
      assert (x + t)[1..] == x[1..] + t;
      NotContainedAfter(x[1..], t, sub);
    }
  }

  /** Text that does not contain `sub` contains nothing that `sub` begins. */
  lemma {:induction false} NotContainedLonger(s: string, sub: string, b: string)
    requires !Contains(s, sub)
    ensures !Contains(s, sub + b)
    decreases |s|
  {
    assert |sub + b| <= |s| ==> s[..|sub + b|][..|sub|] == s[..|sub|] && (sub + b)[..|sub|] == sub;
    if |s| > 0 {
      NotContainedLonger(s[1..], sub, b);
    }
  }

  /** Text that does not contain `sub` contains nothing that ends in `sub`. */
  lemma {:induction false} NotContainedLed(s: string, c: char, sub: string)
    requires !Contains(s, sub)
    ensures !Contains(s, [c] + sub)
    decreases |s|
  {
    if |s| > 0 {
      if |[c] + sub| <= |s| {
        assert s[1..][..|sub|] == s[..|[c] + sub|][1..];
        assert ([c] + sub)[1..] == sub;
      }
      NotContainedLed(s[1..], c, sub);
    }
  }

  /** `n` copies of `c`: the indentation and the runs of line breaks. */
  function Repeat(c: char, n: nat): (r: string)
    ensures |r| == n && forall i :: 0 <= i < n ==> r[i] == c
  {
    seq(n, _ => c)
  }

  /** Every `c` replaced by `d`, character by character. */
  function SwapChar(s: string, c: char, d: char): (r: string)
    ensures |r| == |s| && forall i :: 0 <= i < |s| ==> r[i] == (if s[i] == c then d else s[i])
  {
    seq(|s|, i requires 0 <= i < |s| => if s[i] == c then d else s[i])
  }

  /** Replacing a one-character pattern by one character is a
      character-by-character substitution. */
  lemma {:induction false} ReplaceChar(s: string, c: char, d: char)
    ensures Replace(s, [c], [d]) == SwapChar(s, c, d)
    decreases |s|
  {
    if |s| > 0 {
      ReplaceChar(s[1..], c, d);
      assert StartsWith(s, [c]) <==> s[0] == c;
      assert s[|[c]|..] == s[1..];
      assert SwapChar(s, c, d) == [SwapChar(s, c, d)[0]] + SwapChar(s[1..], c, d);
    }
  }

  /** Every piece of a one-character separator split of `s`, as Python's
      s.split(sep) returns them; never empty. */
  function Split(s: string, sep: char): (parts: seq<string>)
    ensures |parts| >= 1
    ensures forall i :: 0 <= i < |parts| ==> sep !in parts[i]
    decreases |s|
  {
    if |s| == 0 then [""]
    else
      var rest := Split(s[1..], sep);
      if s[0] == sep then [""] + rest
      else [[s[0]] + rest[0]] + rest[1..]
  }

  /** Python's sep.join(parts). */
  function Join(parts: seq<string>, sep: string): string
    decreases |parts|
  {
    if |parts| == 0 then ""
    else if |parts| == 1 then parts[0]
    else parts[0] + sep + Join(parts[1..], sep)
  }

  /** Joining the pieces of a split with the separator gives the string back. */
  lemma {:induction false} JoinSplit(s: string, sep: char)
    ensures Join(Split(s, sep), [sep]) == s
    decreases |s|
  {
    if |s| > 0 {
      var rest := Split(s[1..], sep);
      JoinSplit(s[1..], sep);
      if s[0] == sep {
        assert Split(s, sep) == [""] + rest;
        assert ([""] + rest)[1..] == rest;
      } else {
        var parts := Split(s, sep);
        assert parts == [[s[0]] + rest[0]] + rest[1..];
        if |rest| == 1 {
          assert s[1..] == rest[0];
        } else {
          assert parts[1..] == rest[1..];
          assert Join(rest, [sep]) == rest[0] + [sep] + Join(rest[1..], [sep]);
        }
      }
    }
  }

  /** Splitting a join of separator-free pieces gives the pieces back. */
  lemma {:induction false} SplitJoin(parts: seq<string>, sep: char)
    requires |parts| >= 1
    requires forall i :: 0 <= i < |parts| ==> sep !in parts[i]
    ensures Split(Join(parts, [sep]), sep) == parts
    decreases |parts|
  {
    if |parts| == 1 {
      SplitNoSep(parts[0], sep);
    } else {
      SplitJoin(parts[1..], sep);
      SplitAppend(parts[0], Join(parts[1..], [sep]), sep);
      assert [parts[0]] + parts[1..] == parts;
    }
  }

  /** Splitting a separator-free string yields that string alone. */
  lemma {:induction false} SplitNoSep(s: string, sep: char)
    requires sep !in s
    ensures Split(s, sep) == [s]
    decreases |s|
  {
    if |s| > 0 {
      SplitNoSep(s[1..], sep);
      assert [s[0]] + s[1..] == s;
    }
  }

  /** A separator-free piece followed by the separator contributes exactly one
      piece to the split. */
  lemma {:induction false} SplitAppend(a: string, b: string, sep: char)
    requires sep !in a
    ensures Split(a + [sep] + b, sep) == [a] + Split(b, sep)
    decreases |a|
  {
    if |a| == 0 {
      assert a + [sep] + b == [sep] + b;
      assert ([sep] + b)[1..] == b;
    } else {
      var s := a + [sep] + b;
      assert s[0] == a[0] && s[1..] == a[1..] + [sep] + b;
      SplitAppend(a[1..], b, sep);
      assert [a[0]] + a[1..] == a;
    }
  }

  /** A separator splits the text around it: the pieces before it, then the
      pieces after it. */
  lemma {:induction false} SplitAround(a: string, b: string, sep: char)
    ensures Split(a + [sep] + b, sep) == Split(a, sep) + Split(b, sep)
    decreases |a|
  {
    if |a| == 0 {
      assert a + [sep] + b == [sep] + b;
      assert ([sep] + b)[1..] == b;
    } else {
      var s := a + [sep] + b;
      assert s[0] == a[0] && s[1..] == a[1..] + [sep] + b;
      SplitAround(a[1..], b, sep);
      var ra := Split(a[1..], sep);
      if a[0] != sep {
        assert (ra + Split(b, sep))[1..] == ra[1..] + Split(b, sep);
      }
    }
  }

  /** Joining a concatenation of two non-empty lists. */
  lemma {:induction false} JoinAppend(xs: seq<string>, ys: seq<string>, sep: string)
    requires |xs| >= 1 && |ys| >= 1
    ensures Join(xs + ys, sep) == Join(xs, sep) + sep + Join(ys, sep)
    decreases |xs|
  {
    if |xs| == 1 {
      assert (xs + ys)[1..] == ys;
    } else {
      assert (xs + ys)[1..] == xs[1..] + ys;
      JoinAppend(xs[1..], ys, sep);
    }
  }

  /** Concatenation of a list of strings (Python's "".join). */
  function Concat(parts: seq<string>): string
    decreases |parts|
  {
    if |parts| == 0 then "" else Concat(parts[..|parts| - 1]) + parts[|parts| - 1]
  }

  /** Appending one more part appends its text. */
  lemma ConcatSnoc(parts: seq<string>, x: string)
    ensures Concat(parts + [x]) == Concat(parts) + x
  {
    assert (parts + [x])[..|parts|] == parts;
  }

  /** The characters Python's str.isspace() accepts; str.strip() and int()
      remove exactly these. */
  predicate IsPySpace(c: char) {
    c == ' ' || c == '\t' || c == '\n' || c == '\r' || c == '\U{0b}' || c == '\U{0c}'
    || ('\U{1c}' <= c <= '\U{1f}') || c == '\U{85}' || c == '\U{a0}' || c == '\U{1680}'
    || ('\U{2000}' <= c <= '\U{200a}') || c == '\U{2028}' || c == '\U{2029}'
    || c == '\U{202f}' || c == '\U{205f}' || c == '\U{3000}'
  }

  function LStrip(s: string): (r: string)
    ensures |r| <= |s| && r == s[|s| - |r|..]
    ensures |r| > 0 ==> !IsPySpace(r[0])
    ensures forall i :: 0 <= i < |s| - |r| ==> IsPySpace(s[i])
    decreases |s|
  {
    if |s| > 0 && IsPySpace(s[0]) then LStrip(s[1..]) else s
  }

  function RStrip(s: string): (r: string)
    ensures |r| <= |s| && r == s[..|r|]
    ensures |r| > 0 ==> !IsPySpace(r[|r| - 1])
    ensures forall i :: |r| <= i < |s| ==> IsPySpace(s[i])
    decreases |s|
  {
    if |s| > 0 && IsPySpace(s[|s| - 1]) then RStrip(s[..|s| - 1]) else s
  }

  /** Python's str.strip() with no argument. */
  function Strip(s: string): string {
    RStrip(LStrip(s))
  }

  /** A string that already starts and ends with a non-space is its own strip. */
  lemma StripFramed(s: string)
    requires |s| == 0 || (!IsPySpace(s[0]) && !IsPySpace(s[|s| - 1]))
    ensures Strip(s) == s
  {
  }

  /** Python's str.lower() on ASCII letters; other characters are kept. */
  function Lower(s: string): (r: string)
    ensures |r| == |s|
    ensures forall i :: 0 <= i < |s| ==> r[i] == LowerChar(s[i])
  {
    seq(|s|, i requires 0 <= i < |s| => LowerChar(s[i]))
  }

  /** Python's str.upper() on ASCII letters; other characters are kept. */
  function Upper(s: string): (r: string)
    ensures |r| == |s|
    ensures forall i :: 0 <= i < |s| ==> r[i] == UpperChar(s[i])
  {
    seq(|s|, i requires 0 <= i < |s| => UpperChar(s[i]))
  }

  function LowerChar(c: char): char {
    if 'A' <= c <= 'Z' then (c as int + 32) as char else c
  }

  function UpperChar(c: char): char {
    if 'a' <= c <= 'z' then (c as int - 32) as char else c
  }

  predicate IsDigit(c: char) {
    '0' <= c <= '9'
  }

  function DigitChar(d: nat): char
    requires d < 10
  {
    ('0' as int + d) as char
  }

  function DigitOf(c: char): nat
    requires IsDigit(c)
  {
    c as int - '0' as int
  }

  /** Python's str(n) for a non-negative integer. */
  function NatToString(n: nat): (r: string)
    ensures |r| >= 1 && forall i :: 0 <= i < |r| ==> IsDigit(r[i])
    decreases n
  {
    if n < 10 then [DigitChar(n)] else NatToString(n / 10) + [DigitChar(n % 10)]
  }

  /** The value of a string of decimal digits. */
  function DigitsValue(d: string): nat
    requires forall i :: 0 <= i < |d| ==> IsDigit(d[i])
    decreases |d|
  {
    if |d| == 0 then 0 else DigitsValue(d[..|d| - 1]) * 10 + DigitOf(d[|d| - 1])
  }

  /** The digit run of an integer literal as int() accepts it: digits, with
      single underscores allowed between two digits. */
  predicate ValidDigits(b: string) {
    |b| > 0 && IsDigit(b[0])
    && forall i {:trigger b[i]} :: 0 <= i < |b| ==> IsDigit(b[i]) || (b[i] == '_' && i + 1 < |b| && IsDigit(b[i + 1]))
  }

  function RemoveUnderscores(b: string): (r: string)
    ensures (forall i :: 0 <= i < |b| ==> IsDigit(b[i]) || b[i] == '_')
      ==> (forall j :: 0 <= j < |r| ==> IsDigit(r[j]))
    decreases |b|
  {
    if |b| == 0 then ""
    else if b[0] == '_' then RemoveUnderscores(b[1..])
    else [b[0]] + RemoveUnderscores(b[1..])
  }

  /** Python's int(s) in base 10 for ASCII digits: surrounding white space,
      an optional sign and underscore-separated digits; None where int()
      raises ValueError. */
  function ParseInt(s: string): (r: Option<int>)
  {
    var t := Strip(s);
    var negative := |t| > 0 && t[0] == '-';
    var body := if |t| > 0 && (t[0] == '+' || t[0] == '-') then t[1..] else t;
    if ValidDigits(body) then
      assert forall i :: 0 <= i < |body| ==> IsDigit(body[i]) || body[i] == '_';
      var magnitude: int := DigitsValue(RemoveUnderscores(body));
      Some(if negative then -magnitude else magnitude)
    else None
  }

  datatype Option<+T> = None | Some(value: T)

  lemma {:induction false} DigitsValueOfNat(n: nat)
    ensures DigitsValue(NatToString(n)) == n
    decreases n
  {
    if n >= 10 {
      DigitsValueOfNat(n / 10);
      var r := NatToString(n);
      assert r[..|r| - 1] == NatToString(n / 10);
    }
  }

  lemma {:induction false} RemoveUnderscoresDigits(b: string)
    requires forall i :: 0 <= i < |b| ==> IsDigit(b[i])
    ensures RemoveUnderscores(b) == b
    decreases |b|
  {
    if |b| > 0 {
      RemoveUnderscoresDigits(b[1..]);
      assert [b[0]] + b[1..] == b;
    }
  }

  /** The decimal text str(n) emits is read back by int() as n. */
  lemma ParseNatToString(n: nat)
    ensures ParseInt(NatToString(n)) == Some(n)
  {
    var r := NatToString(n);
    assert !IsPySpace(r[0]) && !IsPySpace(r[|r| - 1]);
    StripFramed(r);
    assert Strip(r) == r;
    assert r[0] != '+' && r[0] != '-';
    assert ValidDigits(r);
    RemoveUnderscoresDigits(r);
    DigitsValueOfNat(n);
    assert DigitsValue(RemoveUnderscores(r)) == n;
  }

  /** str(n) is injective: distinct numbers get distinct text. */
  lemma NatToStringInjective(m: nat, n: nat)
    requires NatToString(m) == NatToString(n)
    ensures m == n
  {
    DigitsValueOfNat(m);
    DigitsValueOfNat(n);
  }
}
