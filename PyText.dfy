/** The few pieces of Python's `str` and `int` behaviour that the scanner relies on:
    `str.strip()`, `str.split(sep)`, `sep.join(parts)`, `list.insert`, the substring
    test `w in s`, `str.isdigit()`, `str(n)` and `int(s)`.  Characters are Unicode
    scalar values; digits are the ASCII digits. */
module PyText {

  datatype Option<T> = None | Some(value: T)

  /** The characters Python's `str.isspace()`, and so `strip()`, treat as white space. */
  predicate IsSpace(c: char) {
    c == ' ' || ('\t' <= c <= '\r') || ('\U{1c}' <= c <= '\U{1f}') ||
    c == '\U{85}' || c == '\U{a0}' || c == '\U{1680}' || ('\U{2000}' <= c <= '\U{200a}') ||
    c == '\U{2028}' || c == '\U{2029}' || c == '\U{202f}' || c == '\U{205f}' || c == '\U{3000}'
  }

  /** Number of white-space characters at the front of `s`. */
  function LeadingSpaces(s: string): (n: nat)
    ensures n <= |s|
    ensures forall k :: 0 <= k < n ==> IsSpace(s[k])
    ensures n < |s| ==> !IsSpace(s[n])
  {
    if |s| > 0 && IsSpace(s[0]) then 1 + LeadingSpaces(s[1..]) else 0
  }

  /** Number of white-space characters at the end of `s`. */
  function TrailingSpaces(s: string): (n: nat)
    ensures n <= |s|
    ensures forall k :: |s| - n <= k < |s| ==> IsSpace(s[k])
    ensures n < |s| ==> !IsSpace(s[|s| - 1 - n])
  {
    if |s| > 0 && IsSpace(s[|s| - 1]) then 1 + TrailingSpaces(s[..|s| - 1]) else 0
  }

  /** Python's `s.strip()`: the result is the slice of `s` that starts after its leading
      white space, every character of `s` outside that slice is white space, and the
      result neither starts nor ends with white space. */
  function Strip(s: string): (r: string)
    ensures LeadingSpaces(s) + |r| <= |s| && r == s[LeadingSpaces(s)..LeadingSpaces(s) + |r|]
    ensures forall k :: 0 <= k < |s| && !(LeadingSpaces(s) <= k < LeadingSpaces(s) + |r|) ==> IsSpace(s[k])
    ensures r == [] || (!IsSpace(r[0]) && !IsSpace(r[|r| - 1]))
  {
    var i := LeadingSpaces(s);
    var t := s[i..];
    var n := TrailingSpaces(t);
    assert forall k :: i + |t| - n <= k < |s| ==> s[k] == t[k - i];
    s[i..|s| - n]
  }

  lemma StripChars(s: string, c: char)
    requires c in Strip(s)
    ensures c in s
  {
    var i := LeadingSpaces(s);
    var k :| 0 <= k < |Strip(s)| && Strip(s)[k] == c;
    assert s[i + k] == c;
  }

  lemma StripAvoids(s: string, c: char)
    ensures Avoids(s, {c}) ==> Avoids(Strip(s), {c})
  {
    if c in Strip(s) { StripChars(s, c); }
  }

  /** Stripping a string that has no white space at either end changes nothing. */
  lemma StripTrimmed(s: string)
    requires s == [] || (!IsSpace(s[0]) && !IsSpace(s[|s| - 1]))
    ensures Strip(s) == s
  {
    if s != [] {
      assert LeadingSpaces(s) == 0;
    }
  }

  lemma StripIdempotent(s: string)
    ensures Strip(Strip(s)) == Strip(s)
  {
    StripTrimmed(Strip(s));
  }

  predicate OccursAt(s: string, w: string, i: nat) {
    i + |w| <= |s| && s[i..i + |w|] == w
  }

  /** Python's substring test `w in s`. */
  predicate Contains(s: string, w: string) {
    exists i: nat :: i <= |s| && OccursAt(s, w, i)
  }

  /** A substring of a slice is a substring of the whole. */
  lemma ContainsInSlice(s: string, i: nat, j: nat, w: string)
    requires i <= j <= |s| && Contains(s[i..j], w)
    ensures Contains(s, w)
  {
    var k: nat :| k <= j - i && OccursAt(s[i..j], w, k);
    assert k + |w| <= j - i;
    forall m | 0 <= m < |w| ensures s[i + k..i + k + |w|][m] == w[m] {
      assert w[m] == s[i..j][k..k + |w|][m];
    }
    assert s[i + k..i + k + |w|] == w;
    assert OccursAt(s, w, i + k);
  }

  lemma ContainsInStrip(s: string, w: string)
    requires Contains(Strip(s), w)
    ensures Contains(s, w)
  {
    var i := LeadingSpaces(s);
    ContainsInSlice(s, i, i + |Strip(s)|, w);
  }

  /** Index of the first character of `s` that is in `seps`, if any. */
  function Find(s: string, seps: set<char>): (r: Option<nat>)
    ensures r.None? ==> forall k :: 0 <= k < |s| ==> s[k] !in seps
    ensures r.Some? ==> r.value < |s| && s[r.value] in seps &&
                        forall k :: 0 <= k < r.value ==> s[k] !in seps
  {
    if |s| == 0 then None
    else if s[0] in seps then Some(0)
    else match Find(s[1..], seps)
      case None => None
      case Some(k) => Some(k + 1)
  }

  predicate Avoids(s: string, seps: set<char>) {
    forall k :: 0 <= k < |s| ==> s[k] !in seps
  }

  /** The pieces of `s` between the characters in `seps`; with a single separator this is
      Python's `s.split(sep)`: never empty, and `""` gives `[""]`. */
  function SplitOn(s: string, seps: set<char>): (parts: seq<string>)
    ensures |parts| >= 1
    ensures forall p :: p in parts ==> Avoids(p, seps)
    decreases |s|
  {
    match Find(s, seps)
    case None => [s]
    case Some(i) => [s[..i]] + SplitOn(s[i + 1..], seps)
  }

  /** Python's `sep.join(parts)`. */
  function Join(parts: seq<string>, sep: char): string {
    if |parts| == 0 then ""
    else if |parts| == 1 then parts[0]
    else parts[0] + [sep] + Join(parts[1..], sep)
  }

  /** Splitting undoes joining when no part holds the separator. */
  lemma {:induction false} SplitJoin(parts: seq<string>, sep: char)
    requires |parts| >= 1
    requires forall p :: p in parts ==> Avoids(p, {sep})
    ensures SplitOn(Join(parts, sep), {sep}) == parts
  {
    assert parts[0] in parts;
    if |parts| > 1 {
      var s := Join(parts, sep);
      var p := parts[0];
      assert s == p + [sep] + Join(parts[1..], sep);
      assert s[|p|] == sep;
      assert forall k :: 0 <= k < |p| ==> s[k] == p[k];
      assert Find(s, {sep}) == Some(|p|);
      assert s[..|p|] == p;
      assert s[|p| + 1..] == Join(parts[1..], sep);
      forall q | q in parts[1..] ensures Avoids(q, {sep}) { assert q in parts; }
      SplitJoin(parts[1..], sep);
    }
  }

  /** Joining undoes splitting. */
  lemma {:induction false} JoinSplit(s: string, sep: char)
    ensures Join(SplitOn(s, {sep}), sep) == s
    decreases |s|
  {
    match Find(s, {sep})
    case None =>
      assert SplitOn(s, {sep}) == [s];
    case Some(i) =>
      var rest := SplitOn(s[i + 1..], {sep});
      JoinSplit(s[i + 1..], sep);
      assert SplitOn(s, {sep}) == [s[..i]] + rest;
      assert ([s[..i]] + rest)[1..] == rest;
      assert Join(SplitOn(s, {sep}), sep) == s[..i] + [sep] + Join(rest, sep);
      assert s == s[..i] + [sep] + s[i + 1..];
  }

  /** Python's `lst.insert(i, x)` for a non-negative index: an index past the end appends. */
  function Insert(s: seq<string>, i: nat, x: string): (r: seq<string>)
    ensures |r| == |s| + 1
    ensures var j := if i <= |s| then i else |s|; r[j] == x && r[..j] == s[..j] && r[j + 1..] == s[j..]
  {
    var j := if i <= |s| then i else |s|;
    s[..j] + [x] + s[j..]
  }

  predicate IsDigit(c: char) {
    '0' <= c <= '9'
  }

  /** Python's `s.isdigit()` over ASCII digits. */
  predicate IsDigits(s: string) {
    |s| > 0 && forall k :: 0 <= k < |s| ==> IsDigit(s[k])
  }

  /** The value of a string of decimal digits, most significant first. */
  function DigitsValue(s: string): nat
    requires forall k :: 0 <= k < |s| ==> IsDigit(s[k])
  {
    if |s| == 0 then 0
    else
      assert IsDigit(s[|s| - 1]);
      10 * DigitsValue(s[..|s| - 1]) + (s[|s| - 1] as int - '0' as int)
  }

  /** The body of a base-10 integer literal that Python's `int()` accepts: digits, with
      single underscores allowed between two digits. */
  predicate IsDigitGroup(s: string) {
    |s| > 0 && IsDigit(s[0]) && IsDigit(s[|s| - 1]) &&
    (forall k :: 0 <= k < |s| ==> IsDigit(s[k]) || s[k] == '_') &&
    (forall k :: 0 < k < |s| && s[k] == '_' ==> s[k - 1] != '_')
  }

  function WithoutUnderscores(s: string): (r: string)
    ensures (forall k :: 0 <= k < |s| ==> IsDigit(s[k]) || s[k] == '_') ==>
            forall k :: 0 <= k < |r| ==> IsDigit(r[k])
  {
    if |s| == 0 then ""
    else if s[0] == '_' then WithoutUnderscores(s[1..])
    else [s[0]] + WithoutUnderscores(s[1..])
  }

  /** The information separators U+001C to U+001F: white space to `strip()`, but not to
      `int()`, which keeps ASCII characters as they are and then skips only ASCII white
      space, after turning other white space into blanks. */
  predicate IsSeparatorControl(c: char) {
    '\U{1c}' <= c <= '\U{1f}'
  }

  predicate NoSeparatorControl(s: string) {
    forall k :: 0 <= k < |s| ==> !IsSeparatorControl(s[k])
  }

  /** The literal `int()` reads once the white space is gone: an optional sign and a digit
      group; a literal without `-` never gives a negative number. */
  function ParseLiteral(t: string): (r: Option<int>)
    ensures r.Some? && Avoids(t, {'-'}) ==> r.value >= 0
  {
    if |t| > 0 && (t[0] == '+' || t[0] == '-') then
      if IsDigitGroup(t[1..]) then
        var v: int := DigitsValue(WithoutUnderscores(t[1..]));
        if t[0] == '-' then Some(-v) else Some(v)
      else None
    else if IsDigitGroup(t) then
      Some(DigitsValue(WithoutUnderscores(t)))
    else None
  }

  /** Python's `int(s)` in base 10: `None` where Python raises `ValueError`. Surrounding
      white space other than the information separators is skipped; a string without `-`
      never gives a negative number. */
  function ParseInt(s: string): (r: Option<int>)
    ensures r.Some? && Avoids(s, {'-'}) ==> r.value >= 0
  {
    if !NoSeparatorControl(s) then None
    else
      var t := Strip(s);
      StripAvoids(s, '-');
      ParseLiteral(t)
  }

  /** The information separators are white space to `strip()`, yet a text holding one,
      anywhere, is refused by `int()`. */
  lemma SeparatorIsNotIntSpace(s: string, k: nat)
    requires k < |s| && IsSeparatorControl(s[k])
    ensures IsSpace(s[k])
    ensures ParseInt(s) == None
  {
  }

  /** A witness: `strip()` removes a leading `\x1c`, so `"\x1c5".strip()` is `"5"`, which
      `int()` accepts, while `int("\x1c5")` is refused. */
  lemma StrippedSeparatorRefused()
    ensures Strip("\U{1c}5") == "5" && ParseInt("5") == Some(5)
    ensures ParseInt("\U{1c}5") == None
  {
    var s := "\U{1c}5";
    assert LeadingSpaces(s) == 1 by {
      assert IsSpace(s[0]) && s[1..] == "5" && !IsSpace('5');
    }
    assert TrailingSpaces(s[1..]) == 0 by {
      assert !IsSpace(s[1..][0]);
    }
    SeparatorIsNotIntSpace(s, 0);
    assert DigitsValue("5") == 5 by {
      assert "5"[..0] == "";
    }
    ParseDigits("5");
  }

  function DigitChar(d: nat): (c: char)
    requires d < 10
    ensures IsDigit(c)
  {
    ('0' as int + d) as char
  }

  /** Python's `str(n)` for a natural number: decimal digits, no leading zero, whose value
      is `n`. */
  function FormatNat(n: nat): (s: string)
    ensures IsDigits(s)
    ensures |s| > 1 ==> s[0] != '0'
    ensures DigitsValue(s) == n
  {
    if n < 10 then [DigitChar(n)]
    else
      var s := FormatNat(n / 10) + [DigitChar(n % 10)];
      assert s[..|s| - 1] == FormatNat(n / 10);
      s
  }

  /** Python's `str(i)` for an integer. */
  function FormatInt(i: int): string {
    if i < 0 then "-" + FormatNat(-i) else FormatNat(i)
  }

  lemma {:induction false} DigitsWithoutUnderscores(s: string)
    requires forall k :: 0 <= k < |s| ==> IsDigit(s[k])
    ensures WithoutUnderscores(s) == s
  {
    if |s| > 0 {
      DigitsWithoutUnderscores(s[1..]);
    }
  }

  lemma DigitsLiteral(s: string)
    requires IsDigits(s)
    ensures ParseLiteral(s) == Some(DigitsValue(s))
  {
    assert !(s[0] == '+' || s[0] == '-') by { assert IsDigit(s[0]); }
    DigitsWithoutUnderscores(s);
    assert IsDigitGroup(s);
  }

  /** On a digit string `int()` is its decimal value. */
  lemma ParseDigits(s: string)
    requires IsDigits(s)
    ensures ParseInt(s) == Some(DigitsValue(s))
  {
    assert NoSeparatorControl(s) by {
      forall k | 0 <= k < |s| ensures !IsSeparatorControl(s[k]) {
        assert IsDigit(s[k]);
      }
    }
    assert !IsSpace(s[0]) && !IsSpace(s[|s| - 1]) by {
      assert IsDigit(s[0]) && IsDigit(s[|s| - 1]);
    }
    StripTrimmed(s);
    DigitsLiteral(s);
  }

  lemma NegativeLiteral(d: string)
    requires IsDigits(d)
    ensures ParseLiteral("-" + d) == Some(0 - DigitsValue(d))
  {
    assert ("-" + d)[1..] == d;
    DigitsWithoutUnderscores(d);
    assert IsDigitGroup(d);
  }

  /** `int()` of a minus sign followed by digits is the negated decimal value. */
  lemma ParseNegative(d: string)
    requires IsDigits(d)
    ensures ParseInt("-" + d) == Some(0 - DigitsValue(d))
  {
    var s := "-" + d;
    assert NoSeparatorControl(s) by {
      forall k | 0 < k < |s| ensures !IsSeparatorControl(s[k]) {
        assert s[k] == d[k - 1] && IsDigit(d[k - 1]);
      }
    }
    assert !IsSpace(s[|s| - 1]) by {
      assert s[|s| - 1] == d[|d| - 1] && IsDigit(d[|d| - 1]);
    }
    StripTrimmed(s);
    NegativeLiteral(d);
  }

  /** `int()` reads back what `str()` writes, for every integer. */
  lemma ParseFormat(i: int)
    ensures ParseInt(FormatInt(i)) == Some(i)
  {
    if i < 0 {
      ParseNegative(FormatNat(-i));
    } else {
      ParseDigits(FormatNat(i));
    }
  }
}
