/** String operations of Python that the client relies on: substring tests,
    clamped slicing, `int()` on a short field, and `str` ordering (which
    pandas uses for the minimum and maximum of a text column). */
module Text {

  import opened Errors

  // ---------------------------------------------------------------------
  // Substrings: `pat in s`
  // ---------------------------------------------------------------------

  /** `pat` occurs in `s` starting at index `i`. */
  predicate OccursAt(pat: string, s: string, i: nat) {
    i + |pat| <= |s| && s[i..i + |pat|] == pat
  }

  /** Reference definition of Python's `pat in s` for strings. */
  ghost predicate IsSubstring(pat: string, s: string) {
    exists i: nat :: OccursAt(pat, s, i)
  }

  /** Executable `pat in s`: try every start position from the left. */
  function Contains(s: string, pat: string): bool
    decreases |s|
  {
    if |s| < |pat| then false
    else s[..|pat|] == pat || Contains(s[1..], pat)
  }

  lemma {:induction false} ContainsIsSubstring(s: string, pat: string)
    ensures Contains(s, pat) <==> IsSubstring(pat, s)
    decreases |s|
  {
    if |s| < |pat| {
      forall i: nat ensures !OccursAt(pat, s, i) {}
    } else if s[..|pat|] == pat {
      assert OccursAt(pat, s, 0);
    } else {
      ContainsIsSubstring(s[1..], pat);
      if Contains(s[1..], pat) {
        var i: nat :| OccursAt(pat, s[1..], i);
        assert s[1..][i..i + |pat|] == s[i + 1..i + 1 + |pat|];
        assert OccursAt(pat, s, i + 1);
      }
      if IsSubstring(pat, s) {
        var i: nat :| OccursAt(pat, s, i);
        assert i != 0;
        assert s[1..][i - 1..i - 1 + |pat|] == s[i..i + |pat|];
        assert OccursAt(pat, s[1..], i - 1);
      }
    }
  }

  /** `' ' + k in name`: the token `k` appears in `name` right after a space. */
  predicate HasSpacedToken(name: string, k: string) {
    Contains(name, " " + k)
  }

  /** A two-letter token after a space, read character by character: the
      form in which a particular camera name is checked. */
  lemma SpacedPair(name: string, k: string)
    requires |k| == 2
    ensures HasSpacedToken(name, k) <==>
      exists i :: 0 <= i < |name| - 2 && name[i] == ' ' && name[i + 1] == k[0] && name[i + 2] == k[1]
  {
    var p := " " + k;
    ContainsIsSubstring(name, p);
    if HasSpacedToken(name, k) {
      var i: nat :| OccursAt(p, name, i);
      assert name[i..i + 3][0] == name[i] && name[i..i + 3][1] == name[i + 1] && name[i..i + 3][2] == name[i + 2];
    }
    if exists i :: 0 <= i < |name| - 2 && name[i] == ' ' && name[i + 1] == k[0] && name[i + 2] == k[1] {
      var i :| 0 <= i < |name| - 2 && name[i] == ' ' && name[i + 1] == k[0] && name[i + 2] == k[1];
      assert name[i..i + 3] == p;
      assert OccursAt(p, name, i);
    }
  }

  /** The index of the first key of `keys` that appears in `name` after a
      space: the `[0]` of the boolean-mask selection both timezone
      heuristics perform. */
  function FirstSpacedToken(name: string, keys: seq<string>): (r: Option<nat>)
    ensures r.Some? ==> r.value < |keys| && HasSpacedToken(name, keys[r.value])
    ensures r.Some? ==> forall j :: 0 <= j < r.value ==> !HasSpacedToken(name, keys[j])
    ensures r.None? <==> forall j :: 0 <= j < |keys| ==> !HasSpacedToken(name, keys[j])
  {
    if |keys| == 0 then None
    else if HasSpacedToken(name, keys[0]) then Some(0)
    else match FirstSpacedToken(name, keys[1..])
      case None => None
      case Some(i) => Some(i + 1)
  }

  /** None of the first `n` two-letter keys follows a space in `name`. */
  lemma NoSpacedPairs(name: string, keys: seq<string>, n: nat)
    requires n <= |keys|
    requires forall j :: 0 <= j < n ==> |keys[j]| == 2
    requires forall i, j :: 0 <= i < |name| - 2 && name[i] == ' ' && 0 <= j < n ==>
      name[i + 1] != keys[j][0] || name[i + 2] != keys[j][1]
    ensures forall j :: 0 <= j < n ==> !HasSpacedToken(name, keys[j])
  {
    forall j | 0 <= j < n ensures !HasSpacedToken(name, keys[j]) {
      SpacedPair(name, keys[j]);
    }
  }

  predicate IsUpper(c: char) {
    'A' <= c <= 'Z'
  }

  /** A state abbreviation: two capital letters. */
  predicate IsStateToken(k: string) {
    |k| == 2 && IsUpper(k[0]) && IsUpper(k[1])
  }

  /** A name in which no space is followed by two capitals contains no
      state abbreviation after a space. */
  lemma NoCapitalPairs(name: string, keys: seq<string>)
    requires forall j :: 0 <= j < |keys| ==> IsStateToken(keys[j])
    requires forall i :: 0 <= i < |name| - 2 && name[i] == ' ' ==> !IsUpper(name[i + 1]) || !IsUpper(name[i + 2])
    ensures forall j :: 0 <= j < |keys| ==> !HasSpacedToken(name, keys[j])
  {
    forall j | 0 <= j < |keys| ensures !HasSpacedToken(name, keys[j]) {
      SpacedPair(name, keys[j]);
    }
  }

  /** Pins down the first match from the keys around it. */
  lemma FirstSpacedTokenAt(name: string, keys: seq<string>, i: nat)
    requires i < |keys| && HasSpacedToken(name, keys[i])
    requires forall j :: 0 <= j < i ==> !HasSpacedToken(name, keys[j])
    ensures FirstSpacedToken(name, keys) == Some(i)
  {
  }

  // ---------------------------------------------------------------------
  // Slicing: `s[i:j]` clamps both bounds to the length
  // ---------------------------------------------------------------------

  function Slice(s: string, i: nat, j: nat): (r: string)
    ensures i <= j <= |s| ==> r == s[i..j]
    ensures j <= |s| ==> |r| == if i <= j then j - i else 0
    ensures i <= |s| < j ==> r == s[i..]
    ensures |s| <= i ==> r == []
  {
    var a := if i < |s| then i else |s|;
    var b := if j < |s| then j else |s|;
    if a <= b then s[a..b] else []
  }

  // ---------------------------------------------------------------------
  // `int(s)` in base 10, for ASCII text
  // ---------------------------------------------------------------------

  /** The ASCII characters `str.strip()` and `int()` treat as whitespace:
      tab through carriage return, the four separators 0x1C-0x1F, space. */
  predicate IsSpace(c: char) {
    (9 <= c as int <= 13) || (28 <= c as int <= 32)
  }

  predicate IsDigit(c: char) {
    '0' <= c <= '9'
  }

  predicate AllDigits(s: string) {
    forall i :: 0 <= i < |s| ==> IsDigit(s[i])
  }

  function StripLeft(s: string): (r: string)
    ensures |r| <= |s| && (r != [] ==> !IsSpace(r[0]))
    ensures r == s[|s| - |r|..]
  {
    if s != [] && IsSpace(s[0]) then StripLeft(s[1..]) else s
  }

  function StripRight(s: string): (r: string)
    ensures |r| <= |s| && (r != [] ==> !IsSpace(r[|r| - 1]))
    ensures r == s[..|r|]
  {
    if s != [] && IsSpace(s[|s| - 1]) then StripRight(s[..|s| - 1]) else s
  }

  /** Digits, with single underscores allowed between two digits
      (`"1_000"`), as `int()` accepts. */
  predicate IsDigitGroups(s: string) {
    && |s| > 0
    && IsDigit(s[0]) && IsDigit(s[|s| - 1])
    && (forall i :: 0 <= i < |s| ==> IsDigit(s[i]) || s[i] == '_')
    && (forall i, j :: 0 <= i < |s| && 0 <= j < |s| && j == i + 1 ==> !(s[i] == '_' && s[j] == '_'))
  }

  function DropUnderscores(s: string): (r: string)
    ensures (forall i :: 0 <= i < |s| ==> IsDigit(s[i]) || s[i] == '_') ==> AllDigits(r)
    ensures AllDigits(s) ==> r == s
  {
    if s == [] then []
    else (if s[0] == '_' then [] else [s[0]]) + DropUnderscores(s[1..])
  }

  /** The value of a string of decimal digits, most significant first. */
  function DecimalValue(s: string): (n: nat)
    requires AllDigits(s)
  {
    if s == [] then 0
    else DecimalValue(s[..|s| - 1]) * 10 + (s[|s| - 1] as int - '0' as int)
  }

  /** Python's `int(s)`: `None` stands for the `ValueError` it raises. */
  function ParseInt(s: string): (r: Option<int>)
  {
    ParseStripped(StripRight(StripLeft(s)))
  }

  /** `int()` on text already stripped of blanks: an optional sign, then
      digit groups. */
  function ParseStripped(t: string): (r: Option<int>)
  {
    if |t| > 0 && (t[0] == '+' || t[0] == '-') then
      if IsDigitGroups(t[1..]) then
        var n: int := DecimalValue(DropUnderscores(t[1..]));
        Some(if t[0] == '-' then -n else n)
      else None
    else if IsDigitGroups(t) then Some(DecimalValue(DropUnderscores(t)))
    else None
  }

  /** On a plain digit string `int()` is the decimal value. */
  lemma ParseDigits(s: string)
    requires |s| > 0 && AllDigits(s)
    ensures ParseInt(s) == Some(DecimalValue(s))
  {
    assert !IsSpace(s[0]) && !IsSpace(s[|s| - 1]);
    assert StripLeft(s) == s;
    assert StripRight(s) == s;
    assert s[0] != '+' && s[0] != '-';
    assert IsDigitGroups(s);
    assert DropUnderscores(s) == s;
  }

  /** `int()` of a single digit is its value. */
  lemma ParseOneDigit(c: char)
    requires IsDigit(c)
    ensures ParseInt([c]) == Some(c as int - '0' as int)
  {
    ParseDigits([c]);
    assert DecimalValue([c]) == c as int - '0' as int by { assert [c][..0] == []; }
  }

  /** `int()` ignores a leading blank. */
  lemma ParseLeadingBlank(s: string)
    requires s != [] && IsSpace(s[0])
    ensures ParseInt(s) == ParseInt(s[1..])
  {
    assert StripLeft(s) == StripLeft(s[1..]);
  }

  /** `int()` rejects an empty or all-blank field. */
  lemma ParseBlank(s: string)
    requires forall i :: 0 <= i < |s| ==> IsSpace(s[i])
    ensures ParseInt(s) == None
  {
    StripLeftBlank(s);
  }

  lemma {:induction false} StripLeftBlank(s: string)
    requires forall i :: 0 <= i < |s| ==> IsSpace(s[i])
    ensures StripLeft(s) == []
  {
    if s != [] {
      StripLeftBlank(s[1..]);
    }
  }

  // ---------------------------------------------------------------------
  // `str` ordering and the min/max pandas takes of a text column
  // ---------------------------------------------------------------------

  /** `a <= b` for Python strings: code points compared left to right, a
      proper prefix first. */
  predicate StrLe(a: string, b: string) {
    if a == [] then true
    else if b == [] then false
    else if a[0] != b[0] then a[0] < b[0]
    else StrLe(a[1..], b[1..])
  }

  lemma {:induction false} StrLeTotal(a: string, b: string)
    ensures StrLe(a, b) || StrLe(b, a)
  {
    if a != [] && b != [] && a[0] == b[0] {
      StrLeTotal(a[1..], b[1..]);
    }
  }

  lemma {:induction false} StrLeTransitive(a: string, b: string, c: string)
    requires StrLe(a, b) && StrLe(b, c)
    ensures StrLe(a, c)
  {
    if a != [] && b != [] && c != [] && a[0] == b[0] && b[0] == c[0] {
      StrLeTransitive(a[1..], b[1..], c[1..]);
    }
  }

  lemma {:induction false} StrLeAntisymmetric(a: string, b: string)
    requires StrLe(a, b) && StrLe(b, a)
    ensures a == b
  {
    if a != [] && b != [] {
      StrLeAntisymmetric(a[1..], b[1..]);
      assert a == [a[0]] + a[1..];
      assert b == [b[0]] + b[1..];
    }
  }

  /** The least string of a non-empty column. */
  function MinStr(xs: seq<string>): (m: string)
    requires |xs| > 0
    ensures m in xs
    ensures forall x :: x in xs ==> StrLe(m, x)
  {
    if |xs| == 1 then
      StrLeReflexive(xs[0]);
      xs[0]
    else
      var rest := MinStr(xs[1..]);
      StrLeTotal(xs[0], rest);
      forall x | x in xs ensures StrLe(if StrLe(xs[0], rest) then xs[0] else rest, x) {
        if x in xs[1..] {
          if StrLe(xs[0], rest) { StrLeTransitive(xs[0], rest, x); }
        } else {
          assert x == xs[0];
          StrLeReflexive(x);
        }
      }
      if StrLe(xs[0], rest) then xs[0] else rest
  }

  /** The greatest string of a non-empty column. */
  function MaxStr(xs: seq<string>): (m: string)
    requires |xs| > 0
    ensures m in xs
    ensures forall x :: x in xs ==> StrLe(x, m)
  {
    if |xs| == 1 then
      StrLeReflexive(xs[0]);
      xs[0]
    else
      var rest := MaxStr(xs[1..]);
      StrLeTotal(xs[0], rest);
      forall x | x in xs ensures StrLe(x, if StrLe(rest, xs[0]) then xs[0] else rest) {
        if x in xs[1..] {
          if StrLe(rest, xs[0]) { StrLeTransitive(x, rest, xs[0]); }
        } else {
          assert x == xs[0];
          StrLeReflexive(x);
        }
      }
      if StrLe(rest, xs[0]) then xs[0] else rest
  }

  lemma {:induction false} StrLeReflexive(a: string)
    ensures StrLe(a, a)
  {
    if a != [] {
      StrLeReflexive(a[1..]);
    }
  }
}
