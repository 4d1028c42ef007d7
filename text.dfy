/** The Python string and integer built-ins the de-identifier relies on:
    str.strip, str.isdigit, int(), str(), the "04d" format specification,
    str.join, str.split with a one-character separator, and str.replace.
    Characters are Unicode code points; digits are the ASCII digits. */
module Text {

  datatype Option<+T> = None | Some(value: T)

  /** Python's str.isspace for one character: the white space str.strip
      removes. */
  predicate IsSpace(c: char) {
    || c == ' ' || ('\t' <= c <= '\r') || ('\U{1C}' <= c <= '\U{1F}')
    || c == '\U{85}' || c == '\U{A0}' || c == '\U{1680}'
    || ('\U{2000}' <= c <= '\U{200A}') || c == '\U{2028}' || c == '\U{2029}'
    || c == '\U{202F}' || c == '\U{205F}' || c == '\U{3000}'
  }

  /** The white space int() skips around a number: the ASCII space and the
      characters tab to carriage return, and every white-space character
      beyond ASCII. The separators U+001C to U+001F are white space for
      str.strip but not for int(). */
  predicate IsIntSpace(c: char) {
    c == ' ' || ('\t' <= c <= '\r') || (c > '\U{7F}' && IsSpace(c))
  }

  /** Number of characters of the set space at the front of s. */
  function LeadingSpaces(s: string, space: char -> bool): (n: nat)
    ensures n <= |s|
    ensures forall k :: 0 <= k < n ==> space(s[k])
    ensures n < |s| ==> !space(s[n])
  {
    if s == [] || !space(s[0]) then 0 else 1 + LeadingSpaces(s[1..], space)
  }

  /** Number of characters of the set space at the end of s. */
  function TrailingSpaces(s: string, space: char -> bool): (n: nat)
    ensures n <= |s|
    ensures forall k :: |s| - n <= k < |s| ==> space(s[k])
    ensures n < |s| ==> !space(s[|s| - n - 1])
  {
    if s == [] || !space(s[|s| - 1]) then 0 else 1 + TrailingSpaces(s[..|s| - 1], space)
  }

  /** True when s neither starts nor ends with a character of the set space. */
  predicate Trimmed(s: string, space: char -> bool) {
    s == [] || (!space(s[0]) && !space(s[|s| - 1]))
  }

  /** s with the characters of the set space removed at both ends, and
      nothing else. */
  function StripWith(s: string, space: char -> bool): (r: string)
    ensures Trimmed(r, space)
    ensures Trimmed(s, space) ==> r == s
  {
    var i := LeadingSpaces(s, space);
    var j := |s| - TrailingSpaces(s[i..], space);
    assert s[i..][..j - i] == s[i..j];
    s[i..j]
  }

  /** Python's str.strip() without argument. */
  function Strip(s: string): (r: string)
    ensures Trimmed(r, IsSpace)
    ensures Trimmed(s, IsSpace) ==> r == s
  {
    StripWith(s, IsSpace)
  }

  /** Strip removes white space at both ends and nothing else. */
  lemma StripRemovesOnlySpaces(s: string)
    ensures exists i, j :: 0 <= i <= j <= |s| && Strip(s) == s[i..j]
              && (forall k :: 0 <= k < i ==> IsSpace(s[k]))
              && (forall k :: j <= k < |s| ==> IsSpace(s[k]))
  {
    var i := LeadingSpaces(s, IsSpace);
    var j := |s| - TrailingSpaces(s[i..], IsSpace);
    assert forall k :: j <= k < |s| ==> s[k] == s[i..][k - i];
    assert Strip(s) == s[i..j];
  }

  predicate IsDigit(c: char) {
    '0' <= c <= '9'
  }

  predicate AllDigits(s: string) {
    forall k :: 0 <= k < |s| ==> IsDigit(s[k])
  }

  /** Python's str.isdigit, for ASCII digits: non-empty and digits only. */
  predicate IsDigits(s: string) {
    |s| > 0 && AllDigits(s)
  }

  function DigitValue(c: char): nat
    requires IsDigit(c)
  {
    c as int - '0' as int
  }

  function DigitChar(d: nat): (c: char)
    requires d < 10
    ensures IsDigit(c) && DigitValue(c) == d
  {
    ('0' as int + d) as char
  }

  /** The number a string of decimal digits denotes (leading zeros allowed). */
  function DecimalValue(s: string): nat
    requires AllDigits(s)
  {
    if s == [] then 0 else 10 * DecimalValue(s[..|s| - 1]) + DigitValue(s[|s| - 1])
  }

  /** Python's str() of a non-negative int: its decimal digits, without
      leading zeros. */
  function NatToString(n: nat): (r: string)
    ensures IsDigits(r)
    ensures DecimalValue(r) == n
    ensures |r| > 1 ==> r[0] != '0'
  {
    if n < 10 then [DigitChar(n)]
    else
      var r := NatToString(n / 10) + [DigitChar(n % 10)];
      assert r[..|r| - 1] == NatToString(n / 10);
      r
  }

  /** Python's str() of an int. */
  function IntToString(i: int): string {
    if i < 0 then "-" + NatToString(-i) else NatToString(i)
  }

  /** Digits, possibly grouped by single underscores, as int() accepts them
      after the optional sign. */
  predicate IsDigitGroups(s: string) {
    && |s| > 0 && IsDigit(s[0]) && IsDigit(s[|s| - 1])
    && (forall k :: 0 <= k < |s| ==> IsDigit(s[k]) || s[k] == '_')
    && (forall k :: 0 <= k < |s| - 1 ==> s[k] == '_' ==> s[k + 1] != '_')
  }

  /** The value of digit groups, read from the right; None when s is not
      digit groups (empty, a leading, trailing or doubled underscore, or a
      character that is neither). */
  function GroupsValue(s: string): Option<nat>
    decreases |s|
  {
    if s == [] || !IsDigit(s[|s| - 1]) then None
    else
      var d := DigitValue(s[|s| - 1]);
      var init := s[..|s| - 1];
      if init == [] then Some(d)
      else if init[|init| - 1] == '_' then
        match GroupsValue(init[..|init| - 1])
        case Some(v) => Some(10 * v + d)
        case None => None
      else
        match GroupsValue(init)
        case Some(v) => Some(10 * v + d)
        case None => None
  }

  predicate IsSign(c: char) {
    c == '+' || c == '-'
  }

  /** int() of a string without white space at its ends: an optional sign,
      then digit groups. None stands for the ValueError int() raises. */
  function ParseStripped(t: string): Option<int> {
    if |t| > 0 && IsSign(t[0]) then
      match GroupsValue(t[1..])
      case Some(magnitude) => Some(if t[0] == '-' then -(magnitude as int) else magnitude as int)
      case None => None
    else
      match GroupsValue(t)
      case Some(v) => Some(v as int)
      case None => None
  }

  /** Python's int() of a string, in base 10: int()'s white space at both
      ends is ignored. */
  function ParseInt(s: string): Option<int> {
    ParseStripped(StripWith(s, IsIntSpace))
  }

  /** The reader accepts exactly digit groups. */
  lemma {:induction false} GroupsValueAccepts(s: string)
    ensures GroupsValue(s).Some? <==> IsDigitGroups(s)
    decreases |s|
  {
    if s != [] && IsDigit(s[|s| - 1]) {
      var init := s[..|s| - 1];
      if init != [] {
        if init[|init| - 1] == '_' {
          var p := init[..|init| - 1];
          GroupsValueAccepts(p);
          assert s == p + ['_', s[|s| - 1]];
          if IsDigitGroups(s) {
            assert p != [] by { assert s[0] != '_'; }
            assert s[|p| - 1] != '_';
            assert forall k :: 0 <= k < |p| ==> p[k] == s[k];
          }
          if IsDigitGroups(p) {
            assert forall k :: 0 <= k < |p| ==> p[k] == s[k];
          }
        } else {
          GroupsValueAccepts(init);
          assert forall k :: 0 <= k < |init| ==> init[k] == s[k];
        }
      }
    }
  }

  /** A plain digit string is read as its decimal value. */
  lemma {:induction false} GroupsValueOfDigits(s: string)
    requires IsDigits(s)
    ensures GroupsValue(s) == Some(DecimalValue(s))
    decreases |s|
  {
    var init := s[..|s| - 1];
    if init != [] {
      assert IsDigit(init[|init| - 1]);
      GroupsValueOfDigits(init);
    }
  }

  /** int() accepts exactly an optional sign and ASCII digit groups,
      surrounded by int()'s white space. */
  lemma ParseIntAccepts(s: string)
    ensures var t := StripWith(s, IsIntSpace);
      ParseInt(s).Some? <==> IsDigitGroups(t) || (|t| > 0 && IsSign(t[0]) && IsDigitGroups(t[1..]))
  {
    var t := StripWith(s, IsIntSpace);
    GroupsValueAccepts(t);
    if |t| > 0 {
      GroupsValueAccepts(t[1..]);
    }
  }

  /** The two white-space sets differ: str.strip removes the separator
      U+001C, while int() rejects a number that starts with it. */
  lemma SeparatorIsNoIntSpace()
    ensures Strip("\U{1C}7") == "7"
    ensures ParseInt("\U{1C}7") == None
    ensures ParseInt(Strip("\U{1C}7")) == Some(7)
  {
    assert LeadingSpaces("\U{1C}7", IsSpace) == 1;
    assert LeadingSpaces("\U{1C}7", IsIntSpace) == 0;
  }

  /** A string of n zeros. */
  function Zeros(n: nat): (r: string)
    ensures |r| == n && AllDigits(r)
    ensures forall k :: 0 <= k < n ==> r[k] == '0'
  {
    if n == 0 then [] else Zeros(n - 1) + "0"
  }

  /** s left-filled with zeros up to width characters. */
  function ZeroFill(s: string, width: nat): (r: string)
    ensures |r| == if |s| >= width then |s| else width
    ensures r[|r| - |s|..] == s
    ensures forall k :: 0 <= k < |r| - |s| ==> r[k] == '0'
  {
    if |s| >= width then s else Zeros(width - |s|) + s
  }

  /** The format specification "04d" applied to an int: the sign (if
      negative) then the digits, zero-filled so that the whole is at least
      four characters wide. */
  function Pad4(n: int): (r: string)
    ensures |r| >= 4
    ensures r[0] == '-' || IsDigit(r[0])
    ensures '/' !in r
  {
    if n < 0 then "-" + ZeroFill(NatToString(-n), 3) else ZeroFill(NatToString(n), 4)
  }

  /** Python's sep.join(parts). */
  function Join(sep: string, parts: seq<string>): string {
    if |parts| == 0 then ""
    else if |parts| == 1 then parts[0]
    else parts[0] + sep + Join(sep, parts[1..])
  }

  /** Python's s.split(sep) for a one-character separator: the pieces
      between the separators, empty pieces included. */
  function Split(s: string, sep: char): (r: seq<string>)
    ensures |r| > 0
    ensures forall i :: 0 <= i < |r| ==> sep !in r[i]
  {
    if s == [] then [""]
    else
      var rest := Split(s[1..], sep);
      if s[0] == sep then [""] + rest else [[s[0]] + rest[0]] + rest[1..]
  }

  /** Python's s.replace(pattern, replacement) for a non-empty pattern: every occurrence,
      found left to right without overlap, is replaced. */
  function ReplaceAll(s: string, pattern: string, replacement: string): string
    requires pattern != []
  {
    if |s| < |pattern| then s
    else if s[..|pattern|] == pattern then replacement + ReplaceAll(s[|pattern|..], pattern, replacement)
    else [s[0]] + ReplaceAll(s[1..], pattern, replacement)
  }

  // ---------------------------------------------------------------------
  // Lemmas

  /** Leading zeros do not change the value of a digit string. */
  lemma {:induction false} DecimalValueZeros(n: nat, s: string)
    requires AllDigits(s)
    ensures AllDigits(Zeros(n) + s) && DecimalValue(Zeros(n) + s) == DecimalValue(s)
  {
    var z := Zeros(n) + s;
    if s == [] {
      assert z == Zeros(n);
      ZerosValue(n);
    } else {
      assert z[..|z| - 1] == Zeros(n) + s[..|s| - 1];
      DecimalValueZeros(n, s[..|s| - 1]);
    }
  }

  lemma {:induction false} ZerosValue(n: nat)
    ensures DecimalValue(Zeros(n)) == 0
  {
    if n > 0 {
      assert Zeros(n)[..n - 1] == Zeros(n - 1);
      ZerosValue(n - 1);
    }
  }

  /** int() of a plain digit string is its decimal value. */
  lemma ParseIntOfDigits(s: string)
    requires IsDigits(s)
    ensures ParseInt(s) == Some(DecimalValue(s))
  {
    assert Trimmed(s, IsIntSpace);
    assert !IsSign(s[0]);
    GroupsValueOfDigits(s);
  }

  /** int() of a string without white space at its ends reads it as it is. */
  lemma ParseIntOfTrimmed(t: string)
    requires Trimmed(t, IsIntSpace)
    ensures ParseInt(t) == ParseStripped(t)
  {
  }

  /** int() of a minus sign followed by digits is the negated value. */
  lemma ParseIntOfNegated(s: string)
    requires IsDigits(s)
    ensures ParseInt("-" + s) == Some(-(DecimalValue(s) as int))
  {
    var t := "-" + s;
    assert t[0] == '-' && t[1..] == s;
    assert t[|t| - 1] == s[|s| - 1];
    ParseIntOfTrimmed(t);
    GroupsValueOfDigits(s);
  }

  /** int() reads back what str() writes. */
  lemma IntToStringRoundTrip(i: int)
    ensures ParseInt(IntToString(i)) == Some(i)
  {
    if i < 0 {
      ParseIntOfNegated(NatToString(-i));
    } else {
      ParseIntOfDigits(NatToString(i));
    }
  }

  /** Zero-filling a digit string keeps it a digit string of the same value. */
  lemma ZeroFillValue(d: string, width: nat)
    requires IsDigits(d)
    ensures IsDigits(ZeroFill(d, width)) && DecimalValue(ZeroFill(d, width)) == DecimalValue(d)
  {
    if |d| < width {
      DecimalValueZeros(width - |d|, d);
    }
  }

  /** int() reads back what the "04d" format writes, so the padding loses
      nothing. */
  lemma Pad4RoundTrip(n: int)
    ensures ParseInt(Pad4(n)) == Some(n)
  {
    if n < 0 {
      var z := ZeroFill(NatToString(-n), 3);
      ZeroFillValue(NatToString(-n), 3);
      assert Pad4(n) == "-" + z;
      ParseIntOfNegated(z);
    } else {
      var z := ZeroFill(NatToString(n), 4);
      ZeroFillValue(NatToString(n), 4);
      assert Pad4(n) == z;
      ParseIntOfDigits(z);
    }
  }

  /** Different numbers are padded to different strings. */
  lemma Pad4Injective(m: int, n: int)
    ensures Pad4(m) == Pad4(n) <==> m == n
  {
    Pad4RoundTrip(m);
    Pad4RoundTrip(n);
  }

  function Pow10(k: nat): nat {
    if k == 0 then 1 else 10 * Pow10(k - 1)
  }

  lemma {:induction false} NatToStringLength(n: nat, k: nat)
    requires 1 <= k && n < Pow10(k)
    ensures |NatToString(n)| <= k
  {
    if n >= 10 {
      assert k > 1;
      NatToStringLength(n / 10, k - 1);
    }
  }

  /** Patient numbers up to 9999 are padded to exactly four characters. */
  lemma Pad4Width(n: int)
    requires 0 <= n < 10000
    ensures |Pad4(n)| == 4
  {
    assert Pow10(4) == 10000;
    NatToStringLength(n, 4);
  }

  /** Splitting a word without separator that is followed by more text
      extends the first piece of the rest. */
  lemma {:induction false} SplitPrefix(w: string, rest: string, sep: char)
    requires sep !in w
    ensures Split(w + rest, sep) == [w + Split(rest, sep)[0]] + Split(rest, sep)[1..]
  {
    if w != [] {
      var r := Split(rest, sep);
      assert (w + rest)[0] == w[0] && w[0] != sep;
      assert (w + rest)[1..] == w[1..] + rest;
      SplitPrefix(w[1..], rest, sep);
      assert [w[0]] + (w[1..] + r[0]) == w + r[0];
    } else {
      var r := Split(rest, sep);
      assert w + rest == rest;
      assert w + r[0] == r[0];
      assert r == [r[0]] + r[1..];
    }
  }

  /** Splitting a joined list on the one-character separator gives the list
      back, provided no part holds the separator. */
  lemma {:induction false} SplitJoin(sep: char, parts: seq<string>)
    requires |parts| > 0
    requires forall i :: 0 <= i < |parts| ==> sep !in parts[i]
    ensures Split(Join([sep], parts), sep) == parts
  {
    if |parts| == 1 {
      SplitPrefix(parts[0], "", sep);
      assert parts[0] + "" == parts[0];
      assert Split("", sep) == [""];
      assert parts == [parts[0] + ""];
    } else {
      var tail := Join([sep], parts[1..]);
      SplitJoin(sep, parts[1..]);
      assert Join([sep], parts) == parts[0] + ([sep] + tail);
      SplitPrefix(parts[0], [sep] + tail, sep);
      assert ([sep] + tail)[1..] == tail;
      assert Split([sep] + tail, sep) == [""] + parts[1..];
      calc {
        Split(Join([sep], parts), sep);
        Split(parts[0] + ([sep] + tail), sep);
        [parts[0] + ""] + parts[1..];
        { assert parts[0] + "" == parts[0]; }
        parts;
      }
    }
  }
  /** One more, empty, part at the end of a join adds one separator. */
  lemma {:induction false} JoinEmptyLast(sep: string, parts: seq<string>)
    requires parts != []
    ensures Join(sep, parts + [""]) == Join(sep, parts) + sep
    decreases |parts|
  {
    if |parts| == 1 {
      assert (parts + [""])[1..] == [""];
    } else {
      assert (parts + [""])[1..] == parts[1..] + [""];
      JoinEmptyLast(sep, parts[1..]);
    }
  }

  /** A character that neither the separator nor any part holds is not in
      the join. */
  lemma {:induction false} JoinAvoids(sep: string, parts: seq<string>, c: char)
    requires c !in sep
    requires forall i :: 0 <= i < |parts| ==> c !in parts[i]
    ensures c !in Join(sep, parts)
    decreases |parts|
  {
    if |parts| > 1 {
      JoinAvoids(sep, parts[1..], c);
    }
  }

  /** Where the text does not start with the pattern, replace keeps its
      first character. */
  lemma ReplaceAllKeepsFirst(s: string, pattern: string, replacement: string)
    requires pattern != [] && |s| >= |pattern| && s[..|pattern|] != pattern
    ensures ReplaceAll(s, pattern, replacement) == [s[0]] + ReplaceAll(s[1..], pattern, replacement)
  {
  }

  /** Where the text starts with the pattern, replace puts the replacement
      in its place. */
  lemma ReplaceAllAtStart(s: string, pattern: string, replacement: string)
    requires pattern != [] && |s| >= |pattern| && s[..|pattern|] == pattern
    ensures ReplaceAll(s, pattern, replacement) == replacement + ReplaceAll(s[|pattern|..], pattern, replacement)
  {
  }
}
