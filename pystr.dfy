/** The Python string built-ins the bot's decision logic relies on: str.strip(), str.lower(),
    str.split()[0], str.startswith(), int(str), str(int) and os.path.splitext. */
module PyStr {

  datatype Option<+T> = None | Some(value: T) {
    /** dict.get(key, default) style access. */
    function GetOr(default: T): T {
      if Some? then value else default
    }
  }

  // ---------------------------------------------------------------------------
  // White space, strip() and split()

  /** str.isspace() for one character: what strip() and split() remove. */
  predicate IsSpace(c: char) {
    if c <= ' ' then c == ' ' || ('\t' <= c <= '\r') || ('\U{1C}' <= c <= '\U{1F}')
    else if c < '\U{85}' then false
    else
      c == '\U{85}' || c == '\U{A0}' || c == '\U{1680}' || ('\U{2000}' <= c <= '\U{200A}')
      || c == '\U{2028}' || c == '\U{2029}' || c == '\U{202F}' || c == '\U{205F}' || c == '\U{3000}'
  }

  /** s.strip() == "": every character is white space (vacuously so for ""). */
  predicate IsBlank(s: string) {
    forall i :: 0 <= i < |s| ==> IsSpace(s[i])
  }

  /** Python truthiness of an optional string: neither None nor "". */
  predicate Truthy(s: Option<string>) {
    s.Some? && s.value != ""
  }

  /** The length of the run of white space that starts s. */
  function LeadingSpaces(s: string): (n: nat)
    ensures n <= |s| && IsBlank(s[..n])
    ensures n < |s| ==> !IsSpace(s[n])
  {
    if s == [] || !IsSpace(s[0]) then 0
    else
      var m := LeadingSpaces(s[1..]);
      assert forall k :: 1 <= k < m + 1 ==> s[k] == s[1..][..m][k - 1];
      1 + m
  }

  /** The length of the run of white space that ends s. */
  function TrailingSpaces(s: string): (n: nat)
    ensures n <= |s| && IsBlank(s[|s| - n..])
    ensures n < |s| ==> !IsSpace(s[|s| - 1 - n])
  {
    if s == [] || !IsSpace(s[|s| - 1]) then 0
    else
      var p := s[..|s| - 1];
      var m := TrailingSpaces(p);
      assert forall k :: |s| - 1 - m <= k < |s| - 1 ==> s[k] == p[|p| - m..][k - (|p| - m)];
      1 + m
  }

  /** str.strip() with no argument. */
  function Strip(s: string): (r: string)
    ensures |r| <= |s|
    ensures r == [] <==> IsBlank(s)
    ensures r != [] ==> !IsSpace(r[0]) && !IsSpace(r[|r| - 1])
  {
    var i := LeadingSpaces(s);
    var j := TrailingSpaces(s[i..]);
    StripSlice(s, i, j);
    s[i..][..|s| - i - j]
  }

  /** The slice strip() keeps: empty exactly for blank input, otherwise bounded by non-space. */
  lemma StripSlice(s: string, i: nat, j: nat)
    requires i == LeadingSpaces(s) && j == TrailingSpaces(s[i..])
    ensures var r := s[i..][..|s| - i - j];
            && (r == [] <==> IsBlank(s))
            && (r != [] ==> !IsSpace(r[0]) && !IsSpace(r[|r| - 1]))
  {
    var t := s[i..];
    var r := t[..|t| - j];
    if r == [] {
      assert t == t[|t| - j..];
      assert s == s[..i] + t;
      BlankConcat(s[..i], t);
    } else {
      assert r[0] == s[i];
      assert r[|r| - 1] == t[|t| - 1 - j];
      assert !IsBlank(s) by {
        assert !IsSpace(s[i]);
      }
    }
  }

  /** Two blank strings make a blank string. */
  lemma BlankConcat(a: string, b: string)
    requires IsBlank(a) && IsBlank(b)
    ensures IsBlank(a + b)
  {
    forall k | 0 <= k < |a + b|
      ensures IsSpace((a + b)[k])
    {
      if k < |a| {
        assert (a + b)[k] == a[k];
      } else {
        assert (a + b)[k] == b[k - |a|];
      }
    }
  }

  /** A string that neither starts nor ends with white space is its own strip(). */
  lemma StripKeeps(s: string)
    requires s != [] ==> !IsSpace(s[0]) && !IsSpace(s[|s| - 1])
    ensures Strip(s) == s
  {
  }

  /** The length of the run of non-space characters that starts s. */
  function WordLength(s: string): (n: nat)
    ensures n <= |s|
    ensures forall k :: 0 <= k < n ==> !IsSpace(s[k])
    ensures n < |s| ==> IsSpace(s[n])
  {
    if s == [] || IsSpace(s[0]) then 0
    else
      var m := WordLength(s[1..]);
      assert forall k :: 1 <= k < m + 1 ==> s[k] == s[1..][k - 1];
      1 + m
  }

  /** s.split()[0]; None where Python raises IndexError because s holds no word. */
  function FirstWord(s: string): (r: Option<string>)
    ensures r.None? <==> IsBlank(s)
    ensures r.Some? ==> r.value != [] && forall k :: 0 <= k < |r.value| ==> !IsSpace(r.value[k])
    ensures r.Some? ==> StartsWith(Strip(s), r.value)
    ensures r.Some? ==> |r.value| == |Strip(s)| || IsSpace(Strip(s)[|r.value|])
  {
    var i := LeadingSpaces(s);
    if i == |s| then
      assert s == s[..i];
      None
    else
      var t := s[i..];
      WordInStripped(s, i);
      Some(t[..WordLength(t)])
  }

  /** The first word after the leading white space lies inside the stripped string, and is
      followed there by white space or by its end. */
  lemma WordInStripped(s: string, i: nat)
    requires i == LeadingSpaces(s) && i < |s|
    ensures var t := s[i..]; var w := t[..WordLength(t)]; var st := Strip(s);
            && w != [] && !IsBlank(s)
            && StartsWith(st, w)
            && (|w| == |st| || IsSpace(st[|w|]))
  {
    var t := s[i..];
    var j := TrailingSpaces(t);
    var st := Strip(s);
    assert st == t[..|t| - j];
    assert t[0] == s[i];
    WordBeforeTrailing(t);
    var n := WordLength(t);
    assert st[..n] == t[..n];
  }

  /** In a string that starts with a non-space, the first word is non-empty and ends before the
      trailing white space. */
  lemma WordBeforeTrailing(t: string)
    requires t != [] && !IsSpace(t[0])
    ensures 0 < WordLength(t) <= |t| - TrailingSpaces(t)
  {
    var j := TrailingSpaces(t);
    if j > 0 {
      assert IsSpace(t[|t| - j..][0]);
      assert IsSpace(t[|t| - j]);
    }
  }

  /** A string whose first white space is at n > 0 has its first n characters as first word. */
  lemma FirstWordUpTo(s: string, n: nat)
    requires 0 < n < |s| && IsSpace(s[n]) && forall k :: 0 <= k < n ==> !IsSpace(s[k])
    ensures FirstWord(s) == Some(s[..n])
  {
    assert LeadingSpaces(s) == 0;
    assert s[0..] == s;
    assert WordLength(s) == n;
  }

  /** strip() leaves something blank only when it started blank. */
  lemma StripBlank(s: string)
    ensures IsBlank(Strip(s)) <==> IsBlank(s)
  {
    var t := Strip(s);
    if !IsBlank(s) {
      assert t != [] && !IsSpace(t[0]);
    }
  }

  // ---------------------------------------------------------------------------
  // lower() and startswith()

  /** Lower-casing of one character, ASCII letters only. */
  function LowerChar(c: char): char {
    if 'A' <= c <= 'Z' then (c as int + 32) as char else c
  }

  /** str.lower() restricted to ASCII letters. */
  function Lower(s: string): (r: string)
    ensures |r| == |s|
    ensures forall i :: 0 <= i < |s| ==> r[i] == LowerChar(s[i])
  {
    if s == [] then [] else [LowerChar(s[0])] + Lower(s[1..])
  }

  /** Lower-casing neither creates nor removes white space. */
  lemma LowerCharSpace(c: char)
    ensures IsSpace(LowerChar(c)) <==> IsSpace(c)
  {
  }

  /** Lower-casing character by character: how a literal's lower() is computed. */
  lemma LowerOfChars(s: string, t: string)
    requires |s| == |t| && forall i :: 0 <= i < |s| ==> LowerChar(s[i]) == t[i]
    ensures Lower(s) == t
  {
  }

  /** str.startswith(prefix). */
  predicate StartsWith(s: string, prefix: string) {
    |prefix| <= |s| && s[..|prefix|] == prefix
  }

  /** s.lower().startswith(p), read off the first |p| characters of s. */
  lemma LowerStartsWith(s: string, p: string)
    requires |p| <= |s| && forall i :: 0 <= i < |p| ==> LowerChar(s[i]) == p[i]
    ensures StartsWith(Lower(s), p)
  {
    assert Lower(s)[..|p|] == p;
  }

  // ---------------------------------------------------------------------------
  // int() and str() on integers

  predicate IsDigit(c: char) {
    '0' <= c <= '9'
  }

  function DigitChar(d: nat): (c: char)
    requires d < 10
    ensures IsDigit(c) && c as int - '0' as int == d
  {
    ('0' as int + d) as char
  }

  /** str(n) for a natural number: its decimal digits, most significant first. */
  function NatToString(n: nat): (s: string)
    ensures |s| > 0 && forall i :: 0 <= i < |s| ==> IsDigit(s[i])
  {
    if n < 10 then [DigitChar(n)] else NatToString(n / 10) + [DigitChar(n % 10)]
  }

  /** str(n), also what an f-string renders for an int. */
  function IntToString(n: int): (s: string)
    ensures |s| > 0
    ensures forall i :: 0 <= i < |s| ==> IsDigit(s[i]) || s[i] == '-'
  {
    if n < 0 then "-" + NatToString(-n) else NatToString(n)
  }

  /** The digit body int() accepts: digits, with single underscores only between two digits. */
  predicate IsDigitGroups(s: string) {
    && |s| > 0 && IsDigit(s[0]) && IsDigit(s[|s| - 1])
    && (forall i :: 0 <= i < |s| ==> IsDigit(s[i]) || s[i] == '_')
    && (forall i, j :: 0 <= i < |s| && 0 <= j < |s| && j == i + 1 ==> IsDigit(s[i]) || IsDigit(s[j]))
  }

  /** The value of a digit body, underscores ignored. */
  function DigitsValue(s: string): nat {
    if s == [] then 0
    else if IsDigit(s[|s| - 1]) then 10 * DigitsValue(s[..|s| - 1]) + (s[|s| - 1] as int - '0' as int)
    else DigitsValue(s[..|s| - 1])
  }

  /** int(s) for a str in base 10; None where Python raises ValueError.
      (Non-ASCII decimal digits, which int() also accepts, are not modelled.) */
  function ParseInt(s: string): (r: Option<int>)
    ensures IsBlank(s) ==> r.None?
  {
    var t := Strip(s);
    if t != [] && (t[0] == '-' || t[0] == '+') then
      if IsDigitGroups(t[1..]) then
        var v: int := DigitsValue(t[1..]);
        Some(if t[0] == '-' then -v else v)
      else None
    else if IsDigitGroups(t) then Some(DigitsValue(t))
    else None
  }

  lemma {:induction false} NatToStringValue(n: nat)
    ensures DigitsValue(NatToString(n)) == n
  {
    if n >= 10 {
      var s := NatToString(n);
      assert s[..|s| - 1] == NatToString(n / 10);
      NatToStringValue(n / 10);
    }
  }

  /** int() of a run of digits is its value. */
  lemma ParseDigits(d: string)
    requires |d| > 0 && forall i :: 0 <= i < |d| ==> IsDigit(d[i])
    ensures ParseInt(d) == Some(DigitsValue(d) as int)
  {
    assert IsDigit(d[0]) && IsDigit(d[|d| - 1]);
    StripKeeps(d);
    assert d[0] != '-' && d[0] != '+';
    assert IsDigitGroups(d);
  }

  /** int() of a minus sign followed by a run of digits is the negated value. */
  lemma ParseNegatedDigits(s: string)
    requires |s| > 1 && s[0] == '-' && forall i :: 1 <= i < |s| ==> IsDigit(s[i])
    ensures ParseInt(s) == Some(-(DigitsValue(s[1..]) as int))
  {
    StripKeeps(s);
    assert IsDigitGroups(s[1..]);
  }

  /** int() reads str(m) back for a natural m. */
  lemma ParseNatString(m: nat)
    ensures ParseInt(NatToString(m)) == Some(m)
  {
    ParseDigits(NatToString(m));
    NatToStringValue(m);
  }

  /** int() reads "-" + str(m) back as -m. */
  lemma ParseNegatedNatString(m: nat)
    ensures ParseInt("-" + NatToString(m)) == Some(-(m as int))
  {
    var d := NatToString(m);
    var s := "-" + d;
    assert s[1..] == d;
    ParseNegatedDigits(s);
    NatToStringValue(m);
  }

  /** int(str(n)) == n. */
  lemma ParseIntRoundTrip(n: int)
    ensures ParseInt(IntToString(n)) == Some(n)
  {
    if n < 0 {
      ParseNegatedNatString(-n);
    } else {
      ParseNatString(n);
    }
  }

  /** str() is injective on integers. */
  lemma IntToStringInjective(a: int, b: int)
    requires IntToString(a) == IntToString(b)
    ensures a == b
  {
    ParseIntRoundTrip(a);
    ParseIntRoundTrip(b);
  }

  // ---------------------------------------------------------------------------
  // os.path.splitext

  /** str.rfind(c): the index of the last c in s, or -1. */
  function RFind(s: string, c: char): (i: int)
    ensures -1 <= i < |s|
    ensures i >= 0 ==> s[i] == c
    ensures forall k :: i < k < |s| ==> s[k] != c
  {
    if s == [] then -1 else if s[|s| - 1] == c then |s| - 1 else RFind(s[..|s| - 1], c)
  }

  /** The extension part of os.path.splitext(p) on POSIX: from the last '.' of the last path
      component, unless only dots precede that '.' in the component (then ""). */
  function Ext(p: string): (e: string)
    ensures |e| <= |p| && p[|p| - |e|..] == e
    ensures e == [] || e[0] == '.'
    ensures forall k :: 0 < k < |e| ==> e[k] != '.' && e[k] != '/'
  {
    var sep := RFind(p, '/');
    var dot := RFind(p, '.');
    if dot > sep && exists k :: sep + 1 <= k < dot && p[k] != '.' then p[dot..] else ""
  }

  /** A name with no '/', not starting with '.', that ends in a dot extension with no further dot,
      has that extension. */
  lemma ExtOfDottedSuffix(p: string, ext: string)
    requires 1 < |ext| < |p| && p[|p| - |ext|..] == ext
    requires ext[0] == '.' && forall k :: 0 < k < |ext| ==> ext[k] != '.'
    requires '/' !in p && p[0] != '.'
    ensures Ext(p) == ext
  {
    var dot := |p| - |ext|;
    assert p[dot] == ext[0];
    forall k | dot < k < |p|
      ensures p[k] != '.'
    {
      assert p[k] == ext[k - dot];
    }
    assert RFind(p, '.') == dot;
    assert RFind(p, '/') == -1;
    assert 0 <= 0 < dot && p[0] != '.';
  }
}
