/**
 * The JavaScript string operations the modelled code relies on, on strings
 * as sequences of characters: trim, case folding of ASCII letters, searching,
 * split/join, decimal digits and the UTF-16 code units behind `length`.
 */
module Strings {

  /** The characters String.prototype.trim removes and the regular expression class \s matches. */
  predicate IsWhitespace(c: char) {
    c == ' ' || c == '\t' || c == '\n' || c == '\r' || c == '\U{000B}' || c == '\U{000C}'
    || c == '\U{00A0}' || c == '\U{FEFF}' || c == '\U{2028}' || c == '\U{2029}'
    || c == '\U{1680}' || ('\U{2000}' <= c <= '\U{200A}') || c == '\U{202F}' || c == '\U{205F}'
    || c == '\U{3000}'
  }

  predicate IsBlank(s: string) {
    forall i :: 0 <= i < |s| ==> IsWhitespace(s[i])
  }

  function TrimStart(s: string): (r: string)
    ensures |r| <= |s| && r == s[|s| - |r|..]
    ensures r == [] || !IsWhitespace(r[0])
    ensures IsBlank(s[..|s| - |r|])
  {
    if s != [] && IsWhitespace(s[0]) then
      var r := TrimStart(s[1..]);
      TrimStartStep(s, r);
      r
    else s
  }

  lemma TrimStartStep(s: string, r: string)
    requires s != [] && IsWhitespace(s[0]) && |r| <= |s| - 1
    requires r == s[1..][|s| - 1 - |r|..] && IsBlank(s[1..][..|s| - 1 - |r|])
    ensures r == s[|s| - |r|..] && IsBlank(s[..|s| - |r|])
  {
    var dropped := s[..|s| - |r|];
    forall i | 0 <= i < |dropped| ensures IsWhitespace(dropped[i]) {
      if i > 0 {
        assert dropped[i] == s[1..][..|s| - 1 - |r|][i - 1];
      }
    }
  }

  function TrimEnd(s: string): (r: string)
    ensures |r| <= |s| && r == s[..|r|]
    ensures r == [] || !IsWhitespace(r[|r| - 1])
    ensures IsBlank(s[|r|..])
  {
    if s != [] && IsWhitespace(s[|s| - 1]) then
      var r := TrimEnd(s[..|s| - 1]);
      TrimEndStep(s, r);
      r
    else s
  }

  lemma TrimEndStep(s: string, r: string)
    requires s != [] && IsWhitespace(s[|s| - 1]) && |r| <= |s| - 1
    requires r == s[..|s| - 1][..|r|] && IsBlank(s[..|s| - 1][|r|..])
    ensures r == s[..|r|] && IsBlank(s[|r|..])
  {
    var dropped := s[|r|..];
    forall i | 0 <= i < |dropped| ensures IsWhitespace(dropped[i]) {
      if i < |s| - 1 - |r| {
        assert dropped[i] == s[..|s| - 1][|r|..][i];
      }
    }
  }

  /** String.prototype.trim */
  function Trim(s: string): (r: string)
    ensures r == [] || (!IsWhitespace(r[0]) && !IsWhitespace(r[|r| - 1]))
    ensures r == [] <==> IsBlank(s)
  {
    var t := TrimStart(s);
    assert IsBlank(s) ==> t == [];
    assert t == [] ==> IsBlank(s) by {
      if t == [] {
        assert s[..|s| - |t|] == s;
      }
    }
    TrimEnd(t)
  }

  /** Trimming a text that neither starts nor ends with whitespace leaves it as it is. */
  lemma TrimUnchanged(s: string)
    requires s != [] && !IsWhitespace(s[0]) && !IsWhitespace(s[|s| - 1])
    ensures Trim(s) == s
  {
    assert TrimStart(s) == s;
  }

  /** Trimming only removes characters. */
  lemma TrimIn(s: string, c: char)
    requires c in Trim(s)
    ensures c in s
  {
    var t := TrimStart(s);
    var r := TrimEnd(t);
    var k :| 0 <= k < |r| && r[k] == c;
    assert t[k] == c;
    assert s[|s| - |t| + k] == c;
  }

  /** Trimming a text that starts with one space removes just that space. */
  lemma TrimLeadingSpace(s: string)
    requires s != [] && !IsWhitespace(s[0]) && !IsWhitespace(s[|s| - 1])
    ensures Trim(" " + s) == s
  {
    var t := " " + s;
    assert t[0] == ' ' && t[1..] == s;
    assert TrimStart(s) == s;
    assert TrimStart(t) == TrimStart(t[1..]);
    TrimUnchanged(s);
  }

  function LowerChar(c: char): char {
    if 'A' <= c <= 'Z' then (c as int + 32) as char else c
  }

  function UpperChar(c: char): char {
    if 'a' <= c <= 'z' then (c as int - 32) as char else c
  }

  predicate IsLower(c: char) {
    'a' <= c <= 'z'
  }

  predicate IsUpper(c: char) {
    'A' <= c <= 'Z'
  }

  /** String.prototype.toLowerCase, restricted to ASCII letters. */
  function ToLower(s: string): (r: string)
    ensures |r| == |s|
    ensures forall i :: 0 <= i < |s| ==> r[i] == LowerChar(s[i])
  {
    seq(|s|, i requires 0 <= i < |s| => LowerChar(s[i]))
  }

  predicate StartsWith(s: string, prefix: string) {
    |prefix| <= |s| && s[..|prefix|] == prefix
  }

  predicate EndsWith(s: string, suffix: string) {
    |suffix| <= |s| && s[|s| - |suffix|..] == suffix
  }

  predicate OccursAt(s: string, sub: string, i: int) {
    0 <= i && i + |sub| <= |s| && s[i..i + |sub|] == sub
  }

  /** String.prototype.indexOf: the first position of sub in s, or -1. */
  function IndexOf(s: string, sub: string): (r: int)
    ensures r == -1 || OccursAt(s, sub, r)
    ensures forall i :: 0 <= i < r ==> !OccursAt(s, sub, i)
    ensures r == -1 ==> forall i :: !OccursAt(s, sub, i)
    decreases |s|
  {
    if |sub| > |s| then -1
    else if s[..|sub|] == sub then 0
    else
      var k := IndexOf(s[1..], sub);
      assert forall i :: 1 <= i ==> (OccursAt(s, sub, i) <==> OccursAt(s[1..], sub, i - 1)) by {
        forall i | 1 <= i
          ensures OccursAt(s, sub, i) <==> OccursAt(s[1..], sub, i - 1)
        {
          if i + |sub| <= |s| {
            assert s[1..][i - 1..i - 1 + |sub|] == s[i..i + |sub|];
          }
        }
      }
      if k == -1 then -1 else k + 1
  }

  /** String.prototype.includes */
  predicate Contains(s: string, sub: string) {
    IndexOf(s, sub) >= 0
  }

  lemma ContainsAt(s: string, sub: string, i: int)
    requires OccursAt(s, sub, i)
    ensures Contains(s, sub)
  {
  }

  /** String.prototype.lastIndexOf for one character. */
  function LastIndexOfChar(s: string, c: char): (r: int)
    ensures -1 <= r < |s|
    ensures r == -1 <==> c !in s
    ensures r >= 0 ==> s[r] == c
    ensures forall j :: r < j < |s| ==> s[j] != c
  {
    if s == [] then -1
    else if s[|s| - 1] == c then |s| - 1
    else
      assert s == s[..|s| - 1] + [s[|s| - 1]];
      LastIndexOfChar(s[..|s| - 1], c)
  }

  /** String.prototype.indexOf for one character. */
  function IndexOfChar(s: string, c: char): (r: int)
    ensures -1 <= r < |s|
    ensures r == -1 <==> c !in s
    ensures r >= 0 ==> s[r] == c
    ensures forall j :: 0 <= j < r ==> s[j] != c
  {
    if s == [] then -1
    else if s[0] == c then 0
    else
      var k := IndexOfChar(s[1..], c);
      assert s == [s[0]] + s[1..];
      if k == -1 then -1 else k + 1
  }

  /** The first position holding c is what indexOf returns. */
  lemma IndexOfCharAt(s: string, c: char, i: int)
    requires 0 <= i < |s| && s[i] == c
    requires forall j :: 0 <= j < i ==> s[j] != c
    ensures IndexOfChar(s, c) == i
  {
    assert s[i] in s;
  }

  /** String.prototype.split with a non-empty string separator. */
  function Split(s: string, sep: string): (r: seq<string>)
    requires |sep| > 0
    ensures |r| >= 1
    decreases |s|
  {
    var i := IndexOf(s, sep);
    if i < 0 then [s] else [s[..i]] + Split(s[i + |sep|..], sep)
  }

  /** Array.prototype.join */
  function Join(parts: seq<string>, sep: string): string {
    if |parts| == 0 then ""
    else if |parts| == 1 then parts[0]
    else parts[0] + sep + Join(parts[1..], sep)
  }

  /** Joining what Split cut apart gives back the original string. */
  lemma {:induction false} JoinSplit(s: string, sep: string)
    requires |sep| > 0
    ensures Join(Split(s, sep), sep) == s
    decreases |s|
  {
    var i := IndexOf(s, sep);
    if i >= 0 {
      var rest := s[i + |sep|..];
      var ps := Split(rest, sep);
      JoinSplit(rest, sep);
      assert Split(s, sep) == [s[..i]] + ps;
      assert ([s[..i]] + ps)[1..] == ps;
      assert Join([s[..i]] + ps, sep) == s[..i] + sep + rest;
      assert OccursAt(s, sep, i);
      assert s == s[..i] + sep + rest;
    }
  }

  /** Splitting at a one-character separator that no part contains gives back the joined parts. */
  lemma {:induction false} SplitJoin(parts: seq<string>, c: char)
    requires |parts| >= 1
    requires forall k :: 0 <= k < |parts| ==> c !in parts[k]
    ensures Split(Join(parts, [c]), [c]) == parts
  {
    var s := Join(parts, [c]);
    var n := |parts[0]|;
    if |parts| == 1 {
      forall i | 0 <= i < |s| ensures !OccursAt(s, [c], i) {
        assert s[i..i + 1] == [s[i]];
      }
    } else {
      var rest := Join(parts[1..], [c]);
      assert s == parts[0] + [c] + rest;
      assert OccursAt(s, [c], n);
      assert forall i :: 0 <= i < n ==> !OccursAt(s, [c], i) by {
        forall i | 0 <= i < n ensures !OccursAt(s, [c], i) {
          assert s[i] == parts[0][i];
          assert s[i..i + 1] == [s[i]];
        }
      }
      assert IndexOf(s, [c]) == n;
      assert s[..n] == parts[0];
      assert s[n + 1..] == rest;
      SplitJoin(parts[1..], c);
    }
  }

  /** Array.prototype.filter(Boolean) on strings: the non-empty ones, in order. */
  function NonEmpty(parts: seq<string>): (r: seq<string>)
    ensures |r| <= |parts|
    ensures forall k :: 0 <= k < |r| ==> r[k] != []
    ensures forall x :: x in r <==> x in parts && x != []
  {
    if parts == [] then []
    else if parts[0] == [] then NonEmpty(parts[1..])
    else [parts[0]] + NonEmpty(parts[1..])
  }

  predicate IsDigit(c: char) {
    '0' <= c <= '9'
  }

  predicate AllDigits(s: string) {
    forall i :: 0 <= i < |s| ==> IsDigit(s[i])
  }

  function DigitChar(d: nat): char
    requires d < 10
  {
    ('0' as int + d) as char
  }

  /** Decimal text of a natural number, without leading zeros. */
  function NatToString(n: nat): (r: string)
    ensures |r| >= 1 && AllDigits(r)
    ensures r[0] == '0' ==> n == 0
  {
    if n < 10 then [DigitChar(n)] else NatToString(n / 10) + [DigitChar(n % 10)]
  }

  /** Number.prototype.toString for integers. */
  function IntToString(i: int): string {
    if i < 0 then "-" + NatToString(-i) else NatToString(i)
  }

  /** The value of a string of decimal digits (Number.parseInt on such a string). */
  function DigitsValue(s: string): nat
    requires AllDigits(s)
  {
    if s == [] then 0 else DigitsValue(s[..|s| - 1]) * 10 + (s[|s| - 1] as int - '0' as int)
  }

  /** Reading back the decimal text of n gives n. */
  lemma {:induction false} DigitsValueOfNatToString(n: nat)
    ensures DigitsValue(NatToString(n)) == n
  {
    if n >= 10 {
      DigitsValueOfNatToString(n / 10);
      var s := NatToString(n);
      assert s[..|s| - 1] == NatToString(n / 10);
    }
  }

  /** Two numbers with the same decimal text are equal. */
  lemma NatToStringInjective(m: nat, n: nat)
    requires NatToString(m) == NatToString(n)
    ensures m == n
  {
    DigitsValueOfNatToString(m);
    DigitsValueOfNatToString(n);
  }

  /** String.prototype.padStart with a one-character pad. */
  function PadStart(s: string, width: nat, pad: char): (r: string)
    ensures |r| == if |s| >= width then |s| else width
    ensures EndsWith(r, s)
    ensures forall i :: 0 <= i < |r| - |s| ==> r[i] == pad
  {
    if |s| >= width then s else seq(width - |s|, _ => pad) + s
  }

  /** Leading zeros do not change the value of a digit string. */
  lemma {:induction false} DigitsValueOfZeros(z: string, s: string)
    requires forall i :: 0 <= i < |z| ==> z[i] == '0'
    requires AllDigits(s)
    ensures AllDigits(z + s) && DigitsValue(z + s) == DigitsValue(s)
    decreases |s|
  {
    if s == [] {
      assert z + s == z;
      DigitsValueOfAllZeros(z);
    } else {
      var t := z + s;
      assert t[..|t| - 1] == z + s[..|s| - 1];
      DigitsValueOfZeros(z, s[..|s| - 1]);
    }
  }

  lemma {:induction false} DigitsValueOfAllZeros(z: string)
    requires forall i :: 0 <= i < |z| ==> z[i] == '0'
    ensures AllDigits(z) && DigitsValue(z) == 0
    decreases |z|
  {
    if z != [] {
      DigitsValueOfAllZeros(z[..|z| - 1]);
    }
  }

  /** Reading back a zero-padded decimal text gives the number. */
  lemma DigitsValueOfPadded(n: nat, width: nat)
    ensures AllDigits(PadStart(NatToString(n), width, '0'))
    ensures DigitsValue(PadStart(NatToString(n), width, '0')) == n
  {
    var s := NatToString(n);
    DigitsValueOfNatToString(n);
    if |s| < width {
      DigitsValueOfZeros(seq(width - |s|, _ => '0'), s);
    }
  }

  /** s.replace(/c/g, rep): every occurrence of c replaced by rep. */
  function ReplaceAllChar(s: string, c: char, rep: string): (r: string)
    ensures c !in rep ==> c !in r
    ensures c !in s ==> r == s
  {
    if s == [] then [] else (if s[0] == c then rep else [s[0]]) + ReplaceAllChar(s[1..], c, rep)
  }

  lemma {:induction false} ReplaceAllCharAppend(a: string, b: string, c: char, rep: string)
    ensures ReplaceAllChar(a + b, c, rep) == ReplaceAllChar(a, c, rep) + ReplaceAllChar(b, c, rep)
    decreases |a|
  {
    if a != [] {
      var head := if a[0] == c then rep else [a[0]];
      assert ReplaceAllChar(a + b, c, rep) == head + ReplaceAllChar(a[1..] + b, c, rep) by {
        assert (a + b)[0] == a[0] && (a + b)[1..] == a[1..] + b;
      }
      assert ReplaceAllChar(a, c, rep) == head + ReplaceAllChar(a[1..], c, rep);
      ReplaceAllCharAppend(a[1..], b, c, rep);
    } else {
      assert a + b == b;
    }
  }

  /** s.replace(sub, rep) with a string pattern: only the first occurrence is replaced. */
  function ReplaceFirst(s: string, sub: string, rep: string): (r: string)
    ensures IndexOf(s, sub) < 0 ==> r == s
  {
    var i := IndexOf(s, sub);
    if i < 0 then s else s[..i] + rep + s[i + |sub|..]
  }

  /** The UTF-16 code units of a text, as a JavaScript string holds them. */
  function Utf16Units(s: string): (r: seq<nat>)
    ensures |r| >= |s|
    ensures forall k :: 0 <= k < |r| ==> r[k] < 0x1_0000
    ensures '\0' !in s ==> forall k :: 0 <= k < |r| ==> r[k] != 0
  {
    if s == [] then []
    else
      var v := s[0] as int;
      (if v < 0x1_0000 then [v] else [0xD800 + (v - 0x1_0000) / 0x400, 0xDC00 + (v - 0x1_0000) % 0x400])
      + Utf16Units(s[1..])
  }

  /** The UTF-16 length of a text (String.prototype.length): one unit per character, two above U+FFFF. */
  function Utf16Length(s: string): (n: nat)
    ensures n >= |s|
    ensures n == 1 <==> |s| == 1 && (s[0] as int) < 0x1_0000
  {
    if s == [] then 0 else (if s[0] as int < 0x1_0000 then 1 else 2) + Utf16Length(s[1..])
  }

  /**
   * The character that holds code unit k of a text: the unit itself below
   * U+10000, or the character whose surrogate pair unit k is half of.
   */
  function UnitChar(s: string, k: nat): (c: char)
    requires k < Utf16Length(s)
    ensures c in s
    ensures Utf16Length(s) == |s| ==> c == s[k]
  {
    if s[0] as int < 0x1_0000 then (if k == 0 then s[0] else UnitChar(s[1..], k - 1))
    else if k <= 1 then s[0] else UnitChar(s[1..], k - 2)
  }

  /** The length counts the code units. */
  lemma {:induction false} Utf16LengthUnits(s: string)
    ensures Utf16Length(s) == |Utf16Units(s)|
  {
    if s != [] {
      Utf16LengthUnits(s[1..]);
    }
  }
}
