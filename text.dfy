/**
 * The string operations the analyzer (Python) and the web application (TypeScript)
 * rely on: whitespace stripping, `str.split`, `str.rsplit(sep, 1)`, substring search,
 * and the `int()` / `float()` conversions of decimal text.
 * Characters are Unicode code points; whitespace is the ASCII set that Python's
 * `str.strip()` and JavaScript's `String.prototype.trim()` both remove.
 */
module Text {
  import opened Wrappers

  predicate IsSpace(c: char) {
    c == ' ' || c == '\t' || c == '\n' || c == '\r' || c == '\U{0B}' || c == '\U{0C}'
  }

  predicate IsBlank(s: string) {
    forall i :: 0 <= i < |s| ==> IsSpace(s[i])
  }

  /** Leading whitespace removed. */
  function StripStart(s: string): (r: string)
    ensures |r| <= |s| && r == s[|s| - |r|..]
    ensures r == [] || !IsSpace(r[0])
    ensures IsBlank(s[..|s| - |r|])
  {
    if s != [] && IsSpace(s[0]) then
      var r := StripStart(s[1..]);
      assert s[1..][..|s| - 1 - |r|] == s[1..|s| - |r|];
      r
    else s
  }

  /** Trailing whitespace removed. */
  function StripEnd(s: string): (r: string)
    ensures r <= s
    ensures r == [] || !IsSpace(r[|r| - 1])
    ensures IsBlank(s[|r|..])
  {
    if s != [] && IsSpace(s[|s| - 1]) then
      var r := StripEnd(s[..|s| - 1]);
      assert s[|r|..] == s[..|s| - 1][|r|..] + [s[|s| - 1]];
      r
    else s
  }

  /** Python's `str.strip()` with no argument; JavaScript's `trim()`. */
  function Strip(s: string): (r: string)
    ensures r == [] || (!IsSpace(r[0]) && !IsSpace(r[|r| - 1]))
    ensures |r| <= |s|
  {
    StripEnd(StripStart(s))
  }

  /** A string strips to nothing exactly when every character of it is whitespace. */
  lemma StripEmptyIffBlank(s: string)
    ensures Strip(s) == [] <==> IsBlank(s)
  {
    var t := StripStart(s);
    if Strip(s) == [] {
      assert IsBlank(t[0..]);
      assert t == [];
      assert s[..|s|] == s;
    } else if t != [] {
      assert !IsSpace(s[|s| - |t|]);
    }
  }

  predicate OccursAt(s: string, pat: string, k: nat) {
    k + |pat| <= |s| && s[k..k + |pat|] == pat
  }

  /** The first position at which `pat` occurs in `s` (`str.find`), if any. */
  function Find(s: string, pat: string): (r: Option<nat>)
    ensures r.Some? ==> OccursAt(s, pat, r.value)
    ensures r.Some? ==> forall k :: 0 <= k < r.value ==> !OccursAt(s, pat, k)
    ensures r.None? ==> forall k :: 0 <= k <= |s| ==> !OccursAt(s, pat, k)
  {
    if |s| < |pat| then None
    else if s[..|pat|] == pat then Some(0)
    else
      var rest := Find(s[1..], pat);
      forall k | 1 <= k <= |s| ensures OccursAt(s, pat, k) == OccursAt(s[1..], pat, k - 1) {
        if k + |pat| <= |s| {
          assert s[k..k + |pat|] == s[1..][k - 1..k - 1 + |pat|];
        }
      }
      match rest
      case None => None
      case Some(k) => Some(k + 1)
  }

  /** Python's and JavaScript's `startsWith`. */
  predicate StartsWith(s: string, prefix: string) {
    |prefix| <= |s| && s[..|prefix|] == prefix
  }

  /** JavaScript's `includes` and Python's `in` on strings. */
  predicate Contains(s: string, pat: string) {
    Find(s, pat).Some?
  }

  /** Python's `s.split(sep)` for a non-empty separator: the pieces between non-overlapping occurrences. */
  function Split(s: string, sep: string): (r: seq<string>)
    requires sep != []
    ensures |r| >= 1
    decreases |s|
  {
    match Find(s, sep)
    case None => [s]
    case Some(i) => [s[..i]] + Split(s[i + |sep|..], sep)
  }

  /** Python's `sep.join(parts)`. */
  function Join(parts: seq<string>, sep: string): string {
    if |parts| == 0 then []
    else if |parts| == 1 then parts[0]
    else parts[0] + sep + Join(parts[1..], sep)
  }

  /** Splitting loses nothing: joining the pieces back with the separator gives the original text. */
  lemma {:induction false} JoinSplit(s: string, sep: string)
    requires sep != []
    ensures Join(Split(s, sep), sep) == s
    decreases |s|
  {
    match Find(s, sep)
    case None =>
    case Some(i) =>
      var tail := s[i + |sep|..];
      var rest := Split(tail, sep);
      JoinSplit(tail, sep);
      var parts := Split(s, sep);
      assert parts == [s[..i]] + rest;
      assert |parts| >= 2 && parts[0] == s[..i] && parts[1..] == rest;
      assert Join(parts, sep) == s[..i] + sep + Join(rest, sep);
      assert s[i..i + |sep|] == sep;
      assert s == s[..i] + s[i..i + |sep|] + tail;
  }

  /** No piece of a split contains the separator. */
  lemma {:induction false} SplitPiecesFree(s: string, sep: string, k: nat)
    requires sep != [] && k < |Split(s, sep)|
    ensures !Contains(Split(s, sep)[k], sep)
    decreases |s|
  {
    match Find(s, sep)
    case None =>
      assert Split(s, sep) == [s];
    case Some(i) =>
      var tail := s[i + |sep|..];
      assert Split(s, sep) == [s[..i]] + Split(tail, sep);
      if k == 0 {
        BeforeFirstFree(s, sep, i);
      } else {
        SplitPiecesFree(tail, sep, k - 1);
      }
  }

  /** The text before the first occurrence of `sep` does not contain it. */
  lemma BeforeFirstFree(s: string, sep: string, i: nat)
    requires sep != [] && Find(s, sep) == Some(i)
    ensures !Contains(s[..i], sep)
  {
    var p := s[..i];
    if Find(p, sep).Some? {
      var j := Find(p, sep).value;
      assert OccursAt(p, sep, j);
      assert j + |sep| <= i <= |s|;
      assert p[j..j + |sep|] == s[j..j + |sep|];
      assert OccursAt(s, sep, j);
    }
  }

  /** A pattern whose first character does not occur in `s` does not occur in `s`. */
  lemma AbsentInitial(s: string, pat: string)
    requires pat != [] && pat[0] !in s
    ensures forall k :: 0 <= k <= |s| ==> !OccursAt(s, pat, k)
  {
    forall k | 0 <= k <= |s| ensures !OccursAt(s, pat, k) {
      if k + |pat| <= |s| {
        assert s[k..k + |pat|][0] == s[k];
      }
    }
  }

  /** Splitting at the first occurrence of the separator. */
  lemma SplitAtFirst(s: string, sep: string, k: nat)
    requires sep != [] && OccursAt(s, sep, k)
    requires forall j :: 0 <= j < k ==> !OccursAt(s, sep, j)
    ensures Split(s, sep) == [s[..k]] + Split(s[k + |sep|..], sep)
  {
    FindFirst(s, sep, k);
  }

  /** The first occurrence is the one `Find` returns. */
  lemma FindFirst(s: string, pat: string, k: nat)
    requires OccursAt(s, pat, k)
    requires forall j :: 0 <= j < k ==> !OccursAt(s, pat, j)
    ensures Find(s, pat) == Some(k)
  {
    var r := Find(s, pat);
    assert r.Some?;
    assert !(r.value < k);
    assert !(r.value > k);
  }

  /** A string without the separator splits into itself alone. */
  lemma SplitAbsent(s: string, sep: string)
    requires sep != [] && forall k :: 0 <= k <= |s| ==> !OccursAt(s, sep, k)
    ensures Split(s, sep) == [s]
  {
  }

  /** The first piece is a prefix of `s` that reaches at least as far as the first possible occurrence. */
  lemma SplitHead(s: string, sep: string, k: nat)
    requires sep != [] && k <= |s|
    requires forall j :: 0 <= j < k ==> !OccursAt(s, sep, j)
    ensures s[..k] <= Split(s, sep)[0] <= s
  {
  }

  /** The position of the last `c` in `s`, if any. */
  function LastIndex(s: string, c: char): (r: Option<nat>)
    ensures r.Some? ==> r.value < |s| && s[r.value] == c
    ensures r.Some? ==> forall k :: r.value < k < |s| ==> s[k] != c
    ensures r.None? ==> c !in s
  {
    if s == [] then None
    else if s[|s| - 1] == c then Some(|s| - 1)
    else LastIndex(s[..|s| - 1], c)
  }

  /** Python's `s.rsplit(c, 1)[0]`: the text before the last `c`, or all of `s` when there is none. */
  function BeforeLast(s: string, c: char): (r: string)
    ensures r <= s
    ensures c !in s ==> r == s
    ensures c in s ==> |r| < |s| && s[|r|] == c && c !in s[|r| + 1..]
  {
    match LastIndex(s, c)
    case None => s
    case Some(i) => s[..i]
  }

  /** ASCII lower-casing, as used for case-insensitive matching. */
  function ToLower(s: string): (r: string)
    ensures |r| == |s|
    ensures forall i :: 0 <= i < |s| ==> ('A' <= s[i] <= 'Z' <==> r[i] != s[i])
  {
    seq(|s|, i requires 0 <= i < |s| =>
      if 'A' <= s[i] <= 'Z' then (s[i] as int - 'A' as int + 'a' as int) as char else s[i])
  }

  predicate IsDigit(c: char) {
    '0' <= c <= '9'
  }

  predicate AllDigits(s: string) {
    forall i :: 0 <= i < |s| ==> IsDigit(s[i])
  }

  function DigitValue(c: char): (d: nat)
    requires IsDigit(c)
    ensures d < 10
  {
    c as int - '0' as int
  }

  function DigitChar(d: nat): (c: char)
    requires d < 10
    ensures IsDigit(c) && DigitValue(c) == d
  {
    ('0' as int + d) as char
  }

  /** The number a string of decimal digits denotes, most significant digit first. */
  function DigitsValue(s: string): nat
    requires AllDigits(s)
  {
    if s == [] then 0 else DigitsValue(s[..|s| - 1]) * 10 + DigitValue(s[|s| - 1])
  }

  /** The shortest decimal numeral of `n`. */
  function NatToString(n: nat): (r: string)
    ensures r != [] && AllDigits(r)
  {
    if n < 10 then [DigitChar(n)] else NatToString(n / 10) + [DigitChar(n % 10)]
  }

  /** Decimal rendering followed by reading the digits gives the number back. */
  lemma {:induction false} DigitsOfNatToString(n: nat)
    ensures DigitsValue(NatToString(n)) == n
  {
    if n >= 10 {
      DigitsOfNatToString(n / 10);
      var r := NatToString(n);
      assert r[..|r| - 1] == NatToString(n / 10);
    }
  }

  function IntToString(i: int): string {
    if i < 0 then "-" + NatToString(-i) else NatToString(i)
  }

  /** A leading minus sign. */
  predicate Negative(t: string) {
    t != [] && t[0] == '-'
  }

  /** The text after an optional leading sign. */
  function Unsigned(t: string): (r: string)
    ensures r == t || (t != [] && r == t[1..])
  {
    if t != [] && (t[0] == '-' || t[0] == '+') then t[1..] else t
  }

  /**
   * Python's `int(text)` on base-10 text: surrounding whitespace, an optional sign and
   * at least one digit; `None` where Python raises `ValueError`.
   */
  function ParseInt(text: string): (r: Option<int>)
    ensures r.Some? ==> exists k :: 0 <= k < |text| && IsDigit(text[k])
  {
    var t := Strip(text);
    var negative := Negative(t);
    var body := Unsigned(t);
    if body != [] && AllDigits(body) then
      assert IsDigit(body[0]);
      StripDigitWitness(text, body);
      Some(if negative then -(DigitsValue(body) as int) else DigitsValue(body))
    else None
  }

  /** Any digit of the stripped body is a digit of the original text. */
  lemma StripDigitWitness(text: string, body: string)
    requires body == Unsigned(Strip(text))
    requires body != [] && IsDigit(body[0])
    ensures exists k :: 0 <= k < |text| && IsDigit(text[k])
  {
    var s := StripStart(text);
    var t := StripEnd(s);
    var off := |text| - |s|;
    var j := if body == t then 0 else 1;
    assert body[0] == t[j] == s[j] == text[off + j];
  }

  /** Rendering an integer in decimal and parsing it back gives the integer. */
  lemma ParseIntToString(i: int)
    ensures ParseInt(IntToString(i)) == Some(i)
  {
    var n: nat := if i < 0 then -i else i;
    DigitsOfNatToString(n);
    if i < 0 {
      ParseNumeral("-" + NatToString(n), NatToString(n), true);
    } else {
      ParseNumeral(NatToString(n), NatToString(n), false);
    }
  }

  /** A numeral, with or without a minus sign, parses as its value. */
  lemma ParseNumeral(s: string, digits: string, negative: bool)
    requires digits != [] && AllDigits(digits)
    requires s == if negative then "-" + digits else digits
    ensures ParseInt(s) == Some(if negative then -(DigitsValue(digits) as int) else DigitsValue(digits))
  {
    NumeralShape(s, digits, negative);
    ParseParts(s, digits, negative);
  }

  /** A numeral has no surrounding whitespace, and its sign and digits are where `int()` looks for them. */
  lemma NumeralShape(s: string, digits: string, negative: bool)
    requires digits != [] && AllDigits(digits)
    requires s == if negative then "-" + digits else digits
    ensures Strip(s) == s && Negative(s) == negative && Unsigned(s) == digits
  {
    var first, last := digits[0], digits[|digits| - 1];
    assert IsDigit(first) && IsDigit(last);
    if negative {
      assert s[0] == '-' && s[|s| - 1] == last && s[1..] == digits;
      StripUnspaced(s);
    } else {
      StripUnspaced(s);
    }
  }

  /** Text that strips to itself parses as its sign applied to the value of its digits. */
  lemma ParseParts(s: string, digits: string, negative: bool)
    requires digits != [] && AllDigits(digits)
    requires Strip(s) == s && Negative(s) == negative && Unsigned(s) == digits
    ensures ParseInt(s) == Some(if negative then -(DigitsValue(digits) as int) else DigitsValue(digits))
  {
  }

  /** Text that neither begins nor ends with whitespace is left alone by `strip()`. */
  lemma StripUnspaced(s: string)
    requires s != [] && !IsSpace(s[0]) && !IsSpace(s[|s| - 1])
    ensures Strip(s) == s
  {
    assert StripStart(s) == s;
    assert StripEnd(s) == s;
  }

  function Pow10(n: nat): (r: nat)
    ensures r >= 1
  {
    if n == 0 then 1 else 10 * Pow10(n - 1)
  }

  /**
   * Python's `float(text)` on plain decimal text: surrounding whitespace, an optional sign,
   * digits with at most one decimal point and at least one digit (`"6"`, `"6.006"`, `".5"`,
   * `"5."`); `None` where Python raises `ValueError`.
   */
  function ParseFloat(text: string): (r: Option<real>)
  {
    var t := Strip(text);
    var negative := Negative(t);
    var body := Unsigned(t);
    var point := Find(body, ".");
    var whole := if point.Some? then body[..point.value] else body;
    var frac := if point.Some? then body[point.value + 1..] else [];
    if AllDigits(whole) && AllDigits(frac) && |whole| + |frac| > 0 then
      var magnitude := DigitsValue(whole) as real + DigitsValue(frac) as real / Pow10(|frac|) as real;
      Some(if negative then -magnitude else magnitude)
    else None
  }

  /** Integer text is read by `float()` as the same number. */
  lemma ParseFloatOfInt(text: string)
    requires ParseInt(text).Some?
    ensures ParseFloat(text) == Some(ParseInt(text).value as real)
  {
    var body := Unsigned(Strip(text));
    assert AllDigits(body);
    assert '.' !in body by {
      forall k | 0 <= k < |body| ensures body[k] != '.' {
        assert IsDigit(body[k]);
      }
    }
    AbsentInitial(body, ".");
    assert Find(body, ".").None?;
    assert DigitsValue([]) as real / Pow10(0) as real == 0.0;
  }

  /** Text that `int()` accepts holds only whitespace, signs and digits. */
  lemma IntTextChars(text: string)
    requires ParseInt(text).Some?
    ensures forall i :: 0 <= i < |text| ==> IsSpace(text[i]) || IsDigit(text[i]) || text[i] == '-' || text[i] == '+'
  {
    var u := StripStart(text);
    var t := StripEnd(u);
    var n := |text| - |u|;
    var body := Unsigned(t);
    assert AllDigits(body);
    forall i | 0 <= i < |text| ensures IsSpace(text[i]) || IsDigit(text[i]) || text[i] == '-' || text[i] == '+' {
      if i < n {
        assert text[..n][i] == text[i];
      } else {
        var j := i - n;
        assert text[i] == u[j];
        if j < |t| {
          assert u[j] == t[j];
          if body != t && j > 0 {
            assert t[j] == body[j - 1];
          } else if body == t {
            assert t[j] == body[j];
          }
        } else {
          assert u[|t|..][j - |t|] == u[j];
        }
      }
    }
  }

  /** A JavaScript string field is truthy when present and non-empty. */
  predicate Truthy(s: Option<string>) {
    s.Some? && s.value != []
  }

  /** JavaScript's `s || null` on an optional string: a falsy value becomes null. */
  function OrNull(s: Option<string>): (r: Option<string>)
    ensures r.Some? <==> Truthy(s)
    ensures r.Some? ==> r == s
  {
    if Truthy(s) then s else None
  }
}
