/**
 * The JavaScript string semantics the store and the route helper rely on:
 * the `\s` character class, `replace(/\s+/g, '_')`, `includes`/`indexOf`,
 * `String.prototype.replace` with a string pattern (first occurrence only,
 * with `$` substitution patterns in the replacement) and `parseFloat`.
 */
module JsText {
  import opened Wrappers
  import opened Text

  /** The characters matched by the regular-expression class `\s`
      (ECMAScript WhiteSpace and LineTerminator). */
  predicate IsJsWhitespace(c: char) {
    || c == '\t' || c == '\n' || c == '\U{B}' || c == '\U{C}' || c == '\r' || c == ' '
    || c == '\U{A0}' || c == '\U{1680}' || ('\U{2000}' <= c <= '\U{200A}')
    || c == '\U{2028}' || c == '\U{2029}' || c == '\U{202F}' || c == '\U{205F}'
    || c == '\U{3000}' || c == '\U{FEFF}'
  }

  predicate NoWhitespace(s: string) {
    forall i :: 0 <= i < |s| ==> !IsJsWhitespace(s[i])
  }

  /** `s` without its leading run of whitespace. */
  function DropLeadingWhitespace(s: string): (r: string)
    ensures |r| <= |s| && r == s[|s| - |r|..]
    ensures r == [] || !IsJsWhitespace(r[0])
    ensures forall i :: 0 <= i < |s| - |r| ==> IsJsWhitespace(s[i])
  {
    if s != [] && IsJsWhitespace(s[0]) then DropLeadingWhitespace(s[1..]) else s
  }

  /** `s.replace(/\s+/g, '_')`: every maximal run of whitespace becomes one underscore. */
  function CollapseWhitespace(s: string): (r: string)
    decreases |s|
  {
    if s == [] then []
    else if IsJsWhitespace(s[0]) then "_" + CollapseWhitespace(DropLeadingWhitespace(s[1..]))
    else [s[0]] + CollapseWhitespace(s[1..])
  }

  /** A character-at-a-time reading of the same rewrite: a whitespace character becomes `_`
      when it starts a run (`afterSpace` is false) and disappears when it continues one. */
  function CollapseByChar(s: string, afterSpace: bool): string {
    if s == [] then []
    else if IsJsWhitespace(s[0]) then (if afterSpace then "" else "_") + CollapseByChar(s[1..], true)
    else [s[0]] + CollapseByChar(s[1..], false)
  }

  lemma {:induction false} CollapseByCharSkipsRun(s: string)
    ensures CollapseByChar(s, true) == CollapseByChar(DropLeadingWhitespace(s), false)
  {
    if s != [] && IsJsWhitespace(s[0]) {
      CollapseByCharSkipsRun(s[1..]);
    }
  }

  /** The regular-expression rewrite agrees with the character-at-a-time reading. */
  lemma {:induction false} CollapseWhitespaceByChar(s: string)
    ensures CollapseWhitespace(s) == CollapseByChar(s, false)
    decreases |s|
  {
    if s != [] {
      if IsJsWhitespace(s[0]) {
        CollapseByCharSkipsRun(s[1..]);
        CollapseWhitespaceByChar(DropLeadingWhitespace(s[1..]));
      } else {
        CollapseWhitespaceByChar(s[1..]);
      }
    }
  }

  /** The rewrite leaves no whitespace, is empty exactly when its input is, and changes
      nothing in a string that has no whitespace. */
  lemma {:induction false} CollapseWhitespaceProperties(s: string)
    ensures NoWhitespace(CollapseWhitespace(s))
    ensures CollapseWhitespace(s) == [] <==> s == []
    ensures NoWhitespace(s) ==> CollapseWhitespace(s) == s
    ensures |CollapseWhitespace(s)| <= |s|
    decreases |s|
  {
    if s != [] {
      if IsJsWhitespace(s[0]) {
        CollapseWhitespaceProperties(DropLeadingWhitespace(s[1..]));
      } else {
        CollapseWhitespaceProperties(s[1..]);
        assert NoWhitespace(s) ==> NoWhitespace(s[1..]);
      }
    }
  }

  /** Applying the rewrite a second time changes nothing. */
  lemma CollapseWhitespaceIdempotent(s: string)
    ensures CollapseWhitespace(CollapseWhitespace(s)) == CollapseWhitespace(s)
  {
    CollapseWhitespaceProperties(s);
    CollapseWhitespaceProperties(CollapseWhitespace(s));
  }

  /** `pat` occurs in `s` starting at index `i`. */
  predicate OccursAt(s: string, pat: string, i: nat) {
    i + |pat| <= |s| && s[i..i + |pat|] == pat
  }

  function IndexFrom(s: string, pat: string, from: nat): (r: Option<nat>)
    requires from <= |s|
    ensures r.Some? ==> from <= r.value && OccursAt(s, pat, r.value)
    ensures r.Some? ==> forall j :: from <= j < r.value ==> !OccursAt(s, pat, j)
    ensures r.None? ==> forall j :: from <= j <= |s| ==> !OccursAt(s, pat, j)
    decreases |s| - from
  {
    if OccursAt(s, pat, from) then Some(from)
    else if from == |s| then None
    else IndexFrom(s, pat, from + 1)
  }

  /** `s.indexOf(pat)`: the first index at which `pat` occurs, if it occurs. */
  function IndexOf(s: string, pat: string): (r: Option<nat>)
    ensures r.Some? ==> OccursAt(s, pat, r.value)
    ensures r.Some? ==> forall j :: 0 <= j < r.value ==> !OccursAt(s, pat, j)
    ensures r.None? <==> forall j :: 0 <= j <= |s| ==> !OccursAt(s, pat, j)
  {
    IndexFrom(s, pat, 0)
  }

  /** `s.includes(pat)`. */
  predicate Includes(s: string, pat: string) {
    IndexOf(s, pat).Some?
  }

  /** The replacement text that `String.prototype.replace` inserts for the template `t`
      (GetSubstitution, section 22.1.3.19.1 of ECMAScript 2023, with no capture groups):
      `$$` is `$`, `$&` the matched text, `` $` `` the text before the match, `$'` the
      text after it; any other `$` is literal. */
  function Substitute(t: string, matched: string, before: string, after: string): string
    decreases |t|
  {
    if t == [] then []
    else if t[0] == '$' && |t| >= 2 then
      match t[1]
      case '$' => "$" + Substitute(t[2..], matched, before, after)
      case '&' => matched + Substitute(t[2..], matched, before, after)
      case '`' => before + Substitute(t[2..], matched, before, after)
      case '\'' => after + Substitute(t[2..], matched, before, after)
      case _ => "$" + Substitute(t[1..], matched, before, after)
    else [t[0]] + Substitute(t[1..], matched, before, after)
  }

  /** A template without `$` is inserted verbatim. */
  lemma {:induction false} SubstitutePlain(t: string, matched: string, before: string, after: string)
    requires '$' !in t
    ensures Substitute(t, matched, before, after) == t
  {
    if t != [] {
      assert '$' !in t[1..];
      SubstitutePlain(t[1..], matched, before, after);
    }
  }

  /** `s.replace(pat, rep)` with a string pattern: only the first occurrence is replaced. */
  function ReplaceFirst(s: string, pat: string, rep: string): (r: string)
    ensures IndexOf(s, pat).None? ==> r == s
    ensures IndexOf(s, pat).Some? ==>
      var i := IndexOf(s, pat).value;
      r == s[..i] + Substitute(rep, pat, s[..i], s[i + |pat|..]) + s[i + |pat|..]
  {
    match IndexOf(s, pat)
    case None => s
    case Some(i) => s[..i] + Substitute(rep, pat, s[..i], s[i + |pat|..]) + s[i + |pat|..]
  }

  /** The length of the leading run of decimal digits of `s`. */
  function DigitRun(s: string): (n: nat)
    ensures n <= |s| && AllDigits(s[..n])
    ensures n < |s| ==> !IsDigit(s[n])
  {
    if s != [] && IsDigit(s[0]) then
      var n := 1 + DigitRun(s[1..]);
      assert s[..n] == [s[0]] + s[1..][..n - 1];
      n
    else 0
  }

  function Pow10(k: nat): (p: nat)
    ensures p >= 1
  {
    if k == 0 then 1 else 10 * Pow10(k - 1)
  }

  /** Digits with an optional fraction, as `parseFloat` reads them after the sign;
      `None` when there is no digit at all. */
  function ParseUnsigned(u: string): Option<real> {
    var n := DigitRun(u);
    var rest := u[n..];
    var m := if rest != [] && rest[0] == '.' then DigitRun(rest[1..]) else 0;
    if n == 0 && m == 0 then None
    else if m == 0 then Some(DigitsValue(u[..n]) as real)
    else Some(DigitsValue(u[..n]) as real + DigitsValue(rest[1..][..m]) as real / Pow10(m) as real)
  }

  /** `parseFloat(s)` on plain decimal text: leading whitespace is skipped, then an optional
      sign, digits, and an optional fraction are read as far as they go; `None` is `NaN`
      (no digit at all). Exponents and `Infinity` are not modelled. */
  function ParseDecimal(s: string): (r: Option<real>)
    ensures r.None? <==>
      var t := DropLeadingWhitespace(s);
      ParseUnsigned(if t != [] && (t[0] == '+' || t[0] == '-') then t[1..] else t).None?
  {
    var t := DropLeadingWhitespace(s);
    var u := if t != [] && (t[0] == '+' || t[0] == '-') then t[1..] else t;
    match ParseUnsigned(u)
    case None => None
    case Some(v) => Some(if t != [] && t[0] == '-' then -v else v)
  }

  lemma {:induction false} DigitRunAll(s: string)
    requires AllDigits(s)
    ensures DigitRun(s) == |s|
  {
    if s != [] {
      DigitRunAll(s[1..]);
    }
  }

  /** A plain run of digits parses to the number it denotes. */
  lemma ParseUnsignedDigits(d: string)
    requires |d| >= 1 && AllDigits(d)
    ensures ParseUnsigned(d) == Some(DigitsValue(d) as real)
  {
    DigitRunAll(d);
    assert d[..|d|] == d;
    assert d[|d|..] == [];
  }

  /** A digit is never whitespace, so a rendered number has nothing to skip. */
  lemma DigitsNotWhitespace(d: string)
    requires |d| >= 1 && AllDigits(d)
    ensures DropLeadingWhitespace(d) == d
    ensures DropLeadingWhitespace("-" + d) == "-" + d
  {
    DigitNotWhitespace(d[0]);
    var m := "-" + d;
    assert m[0] == '-' && !IsJsWhitespace(m[0]);
  }

  lemma DigitNotWhitespace(c: char)
    requires IsDigit(c)
    ensures !IsJsWhitespace(c)
  {
  }

  lemma ParseDecimalOfNat(k: nat)
    ensures ParseDecimal(NatToDecimal(k)) == Some(k as real)
  {
    var d := NatToDecimal(k);
    ParseUnsignedDigits(d);
    NatToDecimalRoundTrip(k);
    DigitsNotWhitespace(d);
    assert IsDigit(d[0]);
    assert d[0] != '+' && d[0] != '-';
  }

  lemma ParseDecimalOfNegated(k: nat)
    ensures ParseDecimal("-" + NatToDecimal(k)) == Some(-(k as real))
  {
    var d := NatToDecimal(k);
    ParseUnsignedDigits(d);
    NatToDecimalRoundTrip(k);
    DigitsNotWhitespace(d);
    assert ("-" + d)[1..] == d;
  }

  /** `parseFloat(String(n))` gives back the integer `n`. */
  lemma ParseDecimalOfInt(n: int)
    ensures ParseDecimal(IntToDecimal(n)) == Some(n as real)
  {
    if n < 0 {
      ParseDecimalOfNegated(-n);
    } else {
      ParseDecimalOfNat(n);
    }
  }

  /** `parseFloat(x) || 0`: unparsable text counts as zero. */
  function AmountOrZero(s: string): real {
    ParseDecimal(s).GetOr(0.0)
  }
}
