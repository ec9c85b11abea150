/**
  The Python string primitives that the toolkit's code relies on
  (`str.strip`, `str.lower`, `str.split`, `str.join`, `str.replace`,
  `in`, `startswith`, `int()` and `float()` literal syntax), stated over
  `seq<char>`. Whitespace and case are modelled over ASCII.
 */
module Text {

  /** The ASCII characters for which Python's `str.isspace()` holds. */
  predicate IsSpace(c: char) {
    c == ' ' || c == '\t' || c == '\n' || c == '\r' || c == '\U{0B}' || c == '\U{0C}'
    || ('\U{1C}' <= c <= '\U{1F}')
  }

  predicate NoSpace(s: string) {
    forall i :: 0 <= i < |s| ==> !IsSpace(s[i])
  }

  /** Concatenation regrouped; stated once so that proofs over long concatenations can call it. */
  lemma AppendAssoc<T>(a: seq<T>, b: seq<T>, c: seq<T>)
    ensures a + b + c == a + (b + c)
  {
  }

  /** No string occurs twice. */
  predicate NoDuplicates(s: seq<string>) {
    forall i, j :: 0 <= i < j < |s| ==> s[i] != s[j]
  }

  predicate StartsWith(s: string, prefix: string) {
    |prefix| <= |s| && s[..|prefix|] == prefix
  }

  predicate EndsWith(s: string, suffix: string) {
    |suffix| <= |s| && s[|s| - |suffix|..] == suffix
  }

  /** Python's `pat in s`. */
  predicate Contains(s: string, pat: string)
    decreases |s|
  {
    |pat| <= |s| && (s[..|pat|] == pat || Contains(s[1..], pat))
  }

  // ---------------------------------------------------------------------
  // strip

  function LStrip(s: string): (r: string)
    ensures |r| <= |s| && r == s[|s| - |r|..]
    ensures r == [] || !IsSpace(r[0])
    ensures forall i :: 0 <= i < |s| - |r| ==> IsSpace(s[i])
  {
    if s != [] && IsSpace(s[0]) then LStrip(s[1..]) else s
  }

  function RStrip(s: string): (r: string)
    ensures |r| <= |s| && r == s[..|r|]
    ensures r == [] || !IsSpace(r[|r| - 1])
    ensures forall i :: |r| <= i < |s| ==> IsSpace(s[i])
  {
    if s != [] && IsSpace(s[|s| - 1]) then RStrip(s[..|s| - 1]) else s
  }

  /** Python's `s.strip()`: the longest slice without whitespace at either end. */
  function Strip(s: string): (r: string)
    ensures r == [] || (!IsSpace(r[0]) && !IsSpace(r[|r| - 1]))
    ensures |r| <= |s|
  {
    RStrip(LStrip(s))
  }

  lemma StripUnchanged(s: string)
    requires s == [] || (!IsSpace(s[0]) && !IsSpace(s[|s| - 1]))
    ensures Strip(s) == s
  {
  }

  lemma StripAllSpace(s: string)
    requires forall i :: 0 <= i < |s| ==> IsSpace(s[i])
    ensures Strip(s) == []
  {
  }

  // ---------------------------------------------------------------------
  // lower

  predicate IsUpper(c: char) {
    'A' <= c <= 'Z'
  }

  function ToLower(c: char): char {
    if IsUpper(c) then (c as int + 32) as char else c
  }

  /** Python's `s.lower()` on ASCII letters. */
  function Lower(s: string): (r: string)
    ensures |r| == |s| && forall i :: 0 <= i < |s| ==> r[i] == ToLower(s[i])
  {
    seq(|s|, i requires 0 <= i < |s| => ToLower(s[i]))
  }

  predicate NoUpper(s: string) {
    forall i :: 0 <= i < |s| ==> !IsUpper(s[i])
  }

  lemma LowerHasNoUpper(s: string)
    ensures NoUpper(Lower(s))
  {
  }

  lemma LowerUnchanged(s: string)
    requires NoUpper(s)
    ensures Lower(s) == s
  {
  }

  // ---------------------------------------------------------------------
  // split() on whitespace, and join

  /** Length of the leading run of non-whitespace characters. */
  function WordLen(s: string): (n: nat)
    ensures n <= |s|
    ensures forall i :: 0 <= i < n ==> !IsSpace(s[i])
    ensures n == |s| || IsSpace(s[n])
  {
    if s == [] || IsSpace(s[0]) then 0 else 1 + WordLen(s[1..])
  }

  /** Python's `s.split()` with no separator: the maximal non-whitespace runs. */
  function Words(s: string): (ws: seq<string>)
    ensures forall i :: 0 <= i < |ws| ==> ws[i] != [] && NoSpace(ws[i])
    decreases |s|
  {
    if s == [] then []
    else if IsSpace(s[0]) then Words(s[1..])
    else
      var n := WordLen(s);
      [s[..n]] + Words(s[n..])
  }

  /** Python's `sep.join(parts)`. */
  function Join(sep: string, parts: seq<string>): string {
    if parts == [] then ""
    else if |parts| == 1 then parts[0]
    else parts[0] + sep + Join(sep, parts[1..])
  }

  lemma {:induction false} WordLenOfWord(w: string, rest: string)
    requires NoSpace(w)
    requires rest == [] || IsSpace(rest[0])
    ensures WordLen(w + rest) == |w|
    decreases |w|
  {
    if w != [] {
      assert (w + rest)[1..] == w[1..] + rest;
      WordLenOfWord(w[1..], rest);
    }
  }

  lemma {:induction false} WordsSkipsSpace(s: string)
    requires s != [] && IsSpace(s[0])
    ensures Words(s) == Words(s[1..])
  {
  }

  /** A word followed by whitespace or nothing splits off as the first word. */
  lemma WordsOfWordThen(w: string, rest: string)
    requires w != [] && NoSpace(w)
    requires rest == [] || IsSpace(rest[0])
    ensures Words(w + rest) == [w] + Words(rest)
  {
    var s := w + rest;
    WordLenOfWord(w, rest);
    assert !IsSpace(s[0]);
    assert s[..|w|] == w;
    assert s[|w|..] == rest;
  }

  /** Splitting words that were joined by single spaces gives them back. */
  lemma {:induction false} WordsOfJoin(ws: seq<string>)
    requires forall i :: 0 <= i < |ws| ==> ws[i] != [] && NoSpace(ws[i])
    ensures Words(Join(" ", ws)) == ws
  {
    if ws == [] {
    } else if |ws| == 1 {
      WordsOfWordThen(ws[0], []);
      assert ws[0] + [] == ws[0];
    } else {
      var w, rest := ws[0], Join(" ", ws[1..]);
      assert Join(" ", ws) == w + (" " + rest);
      WordsOfWordThen(w, " " + rest);
      WordsSkipsSpace(" " + rest);
      assert (" " + rest)[1..] == rest;
      WordsOfJoin(ws[1..]);
      assert [w] + ws[1..] == ws;
    }
  }

  // ---------------------------------------------------------------------
  // split on an explicit separator

  /** Python's `s.split(sep)` for a non-empty separator. */
  function Split(s: string, sep: string): (parts: seq<string>)
    requires sep != []
    ensures |parts| >= 1
    decreases |s|
  {
    if StartsWith(s, sep) then [""] + Split(s[|sep|..], sep)
    else if s == [] then [""]
    else
      var r := Split(s[1..], sep);
      [[s[0]] + r[0]] + r[1..]
  }

  lemma {:induction false} JoinConsFirst(sep: string, c: char, r: seq<string>)
    requires |r| >= 1
    ensures Join(sep, [[c] + r[0]] + r[1..]) == [c] + Join(sep, r)
  {
    var r' := [[c] + r[0]] + r[1..];
    if |r| == 1 {
    } else {
      assert r'[1..] == r[1..];
    }
  }

  lemma JoinConsEmpty(sep: string, r: seq<string>)
    requires |r| >= 1
    ensures Join(sep, [""] + r) == sep + Join(sep, r)
  {
    assert ([""] + r)[1..] == r;
    assert "" + sep == sep;
  }

  /** Joining the pieces of a split with the same separator restores the string. */
  lemma {:induction false} JoinSplit(s: string, sep: string)
    requires sep != []
    ensures Join(sep, Split(s, sep)) == s
    decreases |s|
  {
    if StartsWith(s, sep) {
      var rest := s[|sep|..];
      var r := Split(rest, sep);
      assert Split(s, sep) == [""] + r;
      JoinSplit(rest, sep);
      JoinConsEmpty(sep, r);
      assert s == sep + rest;
    } else if s == [] {
    } else {
      var r := Split(s[1..], sep);
      assert Split(s, sep) == [[s[0]] + r[0]] + r[1..];
      JoinSplit(s[1..], sep);
      JoinConsFirst(sep, s[0], r);
      assert s == [s[0]] + s[1..];
    }
  }

  /** A text without the separator is one piece. */
  lemma {:induction false} SplitAbsent(s: string, sep: string)
    requires sep != [] && !Contains(s, sep)
    ensures Split(s, sep) == [s]
    decreases |s|
  {
    if s != [] {
      assert !StartsWith(s, sep);
      SplitAbsent(s[1..], sep);
      assert [s[0]] + s[1..] == s;
    }
  }

  /**
    The first piece ends where the leftmost occurrence of the separator
    starts, and splitting goes on after that occurrence.
   */
  lemma {:induction false} SplitAtFirst(p: string, sep: string, rest: string)
    requires sep != []
    requires forall i :: 0 <= i < |p| ==> !StartsWith((p + sep + rest)[i..], sep)
    ensures Split(p + sep + rest, sep) == [p] + Split(rest, sep)
    decreases |p|
  {
    var s := p + sep + rest;
    if p == [] {
      assert s == sep + rest;
      assert s[..|sep|] == sep && s[|sep|..] == rest;
    } else {
      assert s[0..] == s;
      assert !StartsWith(s, sep);
      var t := p[1..] + sep + rest;
      assert s[1..] == t;
      forall i | 0 <= i < |p[1..]| ensures !StartsWith(t[i..], sep) {
        assert t[i..] == s[i + 1..];
      }
      SplitAtFirst(p[1..], sep, rest);
      assert [p[0]] + p[1..] == p;
    }
  }

  /** Overlapping occurrences: the leftmost one is cut, the overlapping one is not. */
  lemma SplitOverlapping()
    ensures Split("aaa", "aa") == ["", "a"]
  {
    assert "aaa" == "" + "aa" + "a";
    SplitAtFirst("", "aa", "a");
    SplitAbsent("a", "aa");
  }


  // ---------------------------------------------------------------------
  // replace

  /** Python's `s.replace(pat, rep)`: every non-overlapping occurrence, left to right. */
  function Replace(s: string, pat: string, rep: string): string
    requires pat != []
    decreases |s|
  {
    if |s| < |pat| then s
    else if s[..|pat|] == pat then rep + Replace(s[|pat|..], pat, rep)
    else [s[0]] + Replace(s[1..], pat, rep)
  }

  lemma {:induction false} ReplaceAbsent(s: string, pat: string, rep: string)
    requires pat != [] && !Contains(s, pat)
    ensures Replace(s, pat, rep) == s
    decreases |s|
  {
    if |s| >= |pat| {
      ReplaceAbsent(s[1..], pat, rep);
      assert s == [s[0]] + s[1..];
    }
  }

  /** Replacing one character by another changes exactly those positions. */
  lemma {:induction false} ReplaceChar(s: string, a: char, b: char)
    ensures |Replace(s, [a], [b])| == |s|
    ensures forall i :: 0 <= i < |s| ==>
      Replace(s, [a], [b])[i] == (if s[i] == a then b else s[i])
    decreases |s|
  {
    if |s| >= 1 {
      ReplaceChar(s[1..], a, b);
      var r := Replace(s[1..], [a], [b]);
      assert s[..1] == [s[0]];
      assert Replace(s, [a], [b]) == [if s[0] == a then b else s[0]] + r;
    }
  }

  // ---------------------------------------------------------------------
  // integer and float literals, as Python's int() and float() accept them

  predicate IsDigit(c: char) {
    '0' <= c <= '9'
  }

  predicate AllDigits(s: string) {
    forall i :: 0 <= i < |s| ==> IsDigit(s[i])
  }

  function DigitChar(d: nat): (c: char)
    requires d < 10
    ensures IsDigit(c)
  {
    ('0' as int + d) as char
  }

  function DigitValue(c: char): (d: nat)
    requires IsDigit(c)
    ensures d < 10
  {
    c as int - '0' as int
  }

  /** The decimal rendering of a natural number, as `str(n)` / `"%d" % n` give it. */
  function NatToDecimal(n: nat): (s: string)
    ensures |s| >= 1 && AllDigits(s)
    decreases n
  {
    if n < 10 then [DigitChar(n)] else NatToDecimal(n / 10) + [DigitChar(n % 10)]
  }

  function IntToDecimal(n: int): string {
    if n < 0 then "-" + NatToDecimal(-n) else NatToDecimal(n)
  }

  function DigitsValue(s: string): nat
    requires AllDigits(s)
  {
    if s == [] then 0 else DigitsValue(s[..|s| - 1]) * 10 + DigitValue(s[|s| - 1])
  }

  lemma {:induction false} DigitsValueOfDecimal(n: nat)
    ensures DigitsValue(NatToDecimal(n)) == n
    decreases n
  {
    if n >= 10 {
      var s := NatToDecimal(n);
      DigitsValueOfDecimal(n / 10);
      assert s[..|s| - 1] == NatToDecimal(n / 10);
    }
  }

  /** `digit (["_"] digit)*`: digits with single underscores between them. */
  predicate IsDigitGroup(s: string) {
    && |s| >= 1 && IsDigit(s[0]) && IsDigit(s[|s| - 1])
    && (forall i :: 0 <= i < |s| ==> IsDigit(s[i]) || s[i] == '_')
    && (forall i :: 0 <= i < |s| - 1 && s[i] == '_' ==> s[i + 1] != '_')
  }

  /** Drops one leading `+` or `-`. */
  function Unsigned(t: string): string {
    if |t| > 0 && (t[0] == '+' || t[0] == '-') then t[1..] else t
  }

  function RemoveUnderscores(s: string): (r: string)
    requires forall i :: 0 <= i < |s| ==> IsDigit(s[i]) || s[i] == '_'
    ensures AllDigits(r)
  {
    if s == [] then []
    else if s[0] == '_' then RemoveUnderscores(s[1..])
    else [s[0]] + RemoveUnderscores(s[1..])
  }

  lemma {:induction false} RemoveUnderscoresOfDigits(s: string)
    requires AllDigits(s)
    ensures RemoveUnderscores(s) == s
  {
    if s != [] {
      RemoveUnderscoresOfDigits(s[1..]);
      assert s == [s[0]] + s[1..];
    }
  }

  /**
    The most digits `int()` converts from a decimal string: the default of
    `sys.get_int_max_str_digits()` from Python 3.11 on. Underscores do not
    count.
   */
  const MaxStrDigits := 4300

  /** Whether Python's `int(s)` accepts `s` (base 10, ASCII digits). */
  predicate IsIntLiteral(s: string) {
    var body := Unsigned(Strip(s));
    IsDigitGroup(body) && |RemoveUnderscores(body)| <= MaxStrDigits
  }

  /** The number of decimal digits of `n`, its sign left out. */
  function DigitCount(n: int): nat {
    |NatToDecimal(if n < 0 then -n else n)|
  }

  /** The value `int(s)` returns for an accepted literal. */
  function IntLiteralValue(s: string): int
    requires IsIntLiteral(s)
  {
    var t := Strip(s);
    var magnitude: int := DigitsValue(RemoveUnderscores(Unsigned(t)));
    if t[0] == '-' then -magnitude else magnitude
  }

  /** Every integer's decimal rendering within the digit limit is read back by `int()` as that integer. */
  lemma IntLiteralRoundTrip(n: int)
    requires DigitCount(n) <= MaxStrDigits
    ensures IsIntLiteral(IntToDecimal(n))
    ensures IntLiteralValue(IntToDecimal(n)) == n
  {
    var m := if n < 0 then -n else n;
    var s := IntToDecimal(n);
    DecimalShape(n);
    DecimalDigits(n);
    DigitsAreIntLiteral(s, NatToDecimal(m));
    DigitsValueOfDecimal(m);
  }


  /** A text that is a run of digits within the limit once stripped and unsigned is an `int()` literal of those digits. */
  lemma DigitsAreIntLiteral(s: string, digits: string)
    requires Unsigned(Strip(s)) == digits
    requires 1 <= |digits| <= MaxStrDigits && AllDigits(digits)
    ensures IsIntLiteral(s)
    ensures RemoveUnderscores(Unsigned(Strip(s))) == digits
  {
    DecimalIsDigitGroup(digits);
    RemoveUnderscoresOfDigits(digits);
  }


  /** A decimal rendering has no surrounding whitespace, and starts with `-` exactly when negative. */
  lemma DecimalShape(n: int)
    ensures Strip(IntToDecimal(n)) == IntToDecimal(n)
    ensures IntToDecimal(n)[0] == '-' <==> n < 0
  {
    var s := IntToDecimal(n);
    var digits := NatToDecimal(if n < 0 then -n else n);
    if n < 0 {
      assert s == "-" + digits;
      assert s[0] == '-' && s[|s| - 1] == digits[|digits| - 1];
    }
    StripUnchanged(s);
  }

  /** Stripping a decimal rendering and dropping its sign leaves its digits. */
  lemma DecimalDigits(n: int)
    ensures Unsigned(Strip(IntToDecimal(n))) == NatToDecimal(if n < 0 then -n else n)
  {
    DecimalShape(n);
  }


  /** Beyond the digit limit `int()` rejects a decimal rendering, and `float()` accepts it. */
  lemma LongDecimalIsFloat(n: int)
    requires DigitCount(n) > MaxStrDigits
    ensures !IsIntLiteral(IntToDecimal(n))
    ensures IsFloatLiteral(IntToDecimal(n))
  {
    var digits := NatToDecimal(if n < 0 then -n else n);
    DecimalDigits(n);
    RemoveUnderscoresOfDigits(digits);
    DigitsAreFloatLiteral(IntToDecimal(n), digits);
  }

  /** A text that is a long run of digits once stripped and unsigned is a `float()` literal. */
  lemma DigitsAreFloatLiteral(s: string, digits: string)
    requires Unsigned(Strip(s)) == digits
    requires |digits| > 8 && AllDigits(digits)
    ensures IsFloatLiteral(s)
  {
    assert |Lower(digits)| == |digits|;
    DecimalIsDigitGroup(digits);
    var e := FindFirst(digits, 'e', 'E');
    assert e == |digits| && digits[..e] == digits;
    assert FindFirst(digits, '.', '.') == |digits|;
    assert IsDecimalFloat(digits);
  }

  /** A nonempty run of digits is a digit group with no underscore. */
  lemma DecimalIsDigitGroup(d: string)
    requires |d| >= 1 && AllDigits(d)
    ensures IsDigitGroup(d)
  {
  }

  /** Index of the first character satisfying `p`, or `|t|`. */
  function FindFirst(t: string, a: char, b: char): (i: nat)
    ensures i <= |t|
    ensures i < |t| ==> t[i] == a || t[i] == b
    ensures forall j :: 0 <= j < i ==> t[j] != a && t[j] != b
  {
    if t == [] || t[0] == a || t[0] == b then 0 else 1 + FindFirst(t[1..], a, b)
  }

  /** `digits "." [digits]`, `"." digits` or `digits`. */
  predicate IsMantissa(m: string) {
    var d := FindFirst(m, '.', '.');
    if d == |m| then IsDigitGroup(m)
    else
      var whole, fraction := m[..d], m[d + 1..];
      && (whole == [] || IsDigitGroup(whole))
      && (fraction == [] || IsDigitGroup(fraction))
      && (whole != [] || fraction != [])
  }

  predicate IsDecimalFloat(t: string) {
    var e := FindFirst(t, 'e', 'E');
    IsMantissa(t[..e]) && (e == |t| || IsDigitGroup(Unsigned(t[e + 1..])))
  }

  /** Whether Python's `float(s)` accepts `s`. */
  predicate IsFloatLiteral(s: string) {
    var t := Unsigned(Strip(s));
    var lowered := Lower(t);
    lowered == "inf" || lowered == "infinity" || lowered == "nan" || IsDecimalFloat(t)
  }

  /** A mantissa that is empty, or starts with neither a digit nor a `.`, is rejected. */
  lemma MantissaStart(m: string)
    requires m == [] || (!IsDigit(m[0]) && m[0] != '.')
    ensures !IsMantissa(m)
  {
    if m != [] {
      var d := FindFirst(m, '.', '.');
      if d < |m| {
        assert d > 0;
        assert m[..d][0] == m[0];
      }
    }
  }

  /**
    A text that starts with something no numeric literal can start with is
    accepted by neither `int()` nor `float()`.
   */
  lemma LetterLedNotNumeric(s: string)
    requires s != [] && !IsSpace(s[0]) && !IsSpace(s[|s| - 1])
    requires !IsDigit(s[0]) && s[0] != '.' && s[0] != '+' && s[0] != '-'
    requires ToLower(s[0]) != 'i' && ToLower(s[0]) != 'n'
    ensures !IsIntLiteral(s) && !IsFloatLiteral(s)
  {
    StripUnchanged(s);
    assert Unsigned(s) == s;
    var lowered := Lower(s);
    assert lowered[0] != "inf"[0] && lowered[0] != "infinity"[0] && lowered[0] != "nan"[0];
    var e := FindFirst(s, 'e', 'E');
    assert s[..e] == [] || s[..e][0] == s[0];
    MantissaStart(s[..e]);
    assert !IsDecimalFloat(s);
  }
}
